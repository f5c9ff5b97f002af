/** Positional notation: what a digit string denotes, and the digit strings of a number. */
module Radix {
  /** The number a big-endian digit string denotes. */
  function Value(digits: seq<nat>, radix: nat): nat {
    if digits == [] then 0 else Value(digits[..|digits| - 1], radix) * radix + digits[|digits| - 1]
  }

  predicate DigitsBelow(digits: seq<nat>, radix: nat) {
    forall k :: 0 <= k < |digits| ==> digits[k] < radix
  }

  function LeadingZeros(digits: seq<nat>): (n: nat)
    ensures n <= |digits|
  {
    if digits == [] || digits[0] != 0 then 0 else 1 + LeadingZeros(digits[1..])
  }

  /** The shortest big-endian digit string of a number; empty for zero. */
  function Digits(number: nat, radix: nat): (d: seq<nat>)
    requires radix >= 2
    ensures DigitsBelow(d, radix)
    decreases number
  {
    if number == 0 then [] else Digits(number / radix, radix) + [number % radix]
  }

  function Zeros(n: nat): (z: seq<nat>)
    ensures |z| == n && forall k :: 0 <= k < n ==> z[k] == 0
  {
    seq(n, _ => 0)
  }

  /** The same number with the same leading zeros, written in another radix. */
  function Convert(digits: seq<nat>, from: nat, to: nat): seq<nat>
    requires to >= 2
  {
    Zeros(LeadingZeros(digits)) + Digits(Value(digits, from), to)
  }

  lemma {:induction false} ValueOfDigits(number: nat, radix: nat)
    requires radix >= 2
    ensures Value(Digits(number, radix), radix) == number
    ensures number > 0 ==> Digits(number, radix) != [] && Digits(number, radix)[0] != 0
    decreases number
  {
    if number != 0 {
      QuotientIsSmaller(number, radix);
      ValueOfDigits(number / radix, radix);
      LastDigitValue(number, radix, Digits(number / radix, radix));
    }
  }

  lemma LastDigitValue(number: nat, radix: nat, more: seq<nat>)
    requires radix >= 2 && number != 0 && more == Digits(number / radix, radix)
    requires Value(more, radix) == number / radix && (number / radix > 0 ==> more != [] && more[0] != 0)
    ensures Value(Digits(number, radix), radix) == number
    ensures Digits(number, radix) != [] && Digits(number, radix)[0] != 0
  {
    ValueOfMore(more, number % radix, radix);
    assert Digits(number, radix) == more + [number % radix];
    DivisionSplits(number, radix);
  }

  lemma QuotientIsSmaller(number: nat, radix: nat)
    requires radix >= 2 && number != 0
    ensures 0 <= number / radix < number
  {
    DivisionSplits(number, radix);
    assert number / radix * radix >= number / radix * 2;
  }

  lemma DivisionSplits(number: nat, radix: nat)
    requires radix >= 2
    ensures number == number / radix * radix + number % radix
    ensures number / radix == 0 ==> number % radix == number
  {
  }

  lemma ValueOfMore(digits: seq<nat>, last: nat, radix: nat)
    ensures Value(digits + [last], radix) == Value(digits, radix) * radix + last
  {
    assert (digits + [last])[..|digits|] == digits;
  }

  lemma {:induction false} ValueOfZeros(n: nat, digits: seq<nat>, radix: nat)
    ensures Value(Zeros(n) + digits, radix) == Value(digits, radix)
    decreases |digits|, n
  {
    var all := Zeros(n) + digits;
    if digits != [] {
      assert all[..|all| - 1] == Zeros(n) + digits[..|digits| - 1];
      ValueOfZeros(n, digits[..|digits| - 1], radix);
    } else if n > 0 {
      assert all[..|all| - 1] == Zeros(n - 1) + digits;
      ValueOfZeros(n - 1, digits, radix);
    }
  }

  lemma {:induction false} LeadingZerosOfPadded(n: nat, digits: seq<nat>)
    requires digits == [] || digits[0] != 0
    ensures LeadingZeros(Zeros(n) + digits) == n
  {
    if n > 0 {
      assert (Zeros(n) + digits)[1..] == Zeros(n - 1) + digits;
      LeadingZerosOfPadded(n - 1, digits);
    } else {
      assert Zeros(n) + digits == digits;
    }
  }

  /** A digit string is its leading zeros followed by the shortest digits of its value. */
  lemma {:induction false} Canonical(digits: seq<nat>, radix: nat)
    requires radix >= 2 && DigitsBelow(digits, radix)
    ensures Convert(digits, radix, radix) == digits
  {
    if digits != [] {
      var init, last := digits[..|digits| - 1], digits[|digits| - 1];
      Canonical(init, radix);
      LeadingZerosOfInit(digits);
      if LeadingZeros(init) == |init| {
        AllZero(init);
        CanonicalZeros(|init|, last, radix);
      } else {
        CanonicalMore(digits, init, last, radix);
      }
      assert init + [last] == digits;
    }
  }

  lemma CanonicalMore(digits: seq<nat>, init: seq<nat>, last: nat, radix: nat)
    requires radix >= 2 && digits != [] && init == digits[..|digits| - 1] && last == digits[|digits| - 1] < radix
    requires Convert(init, radix, radix) == init && LeadingZeros(digits) == LeadingZeros(init) < |init|
    ensures Convert(digits, radix, radix) == init + [last]
  {
    var zeros, v := Zeros(LeadingZeros(init)), Value(init, radix);
    var shortest := Digits(v, radix);
    assert |init| == |zeros| + |shortest| && |shortest| > 0;
    assert v != 0;
    AppendDigit(v, last, radix);
    assert Value(digits, radix) == v * radix + last;
    assert zeros + (shortest + [last]) == zeros + shortest + [last];
  }

  lemma CanonicalZeros(n: nat, last: nat, radix: nat)
    requires radix >= 2 && last < radix
    ensures Convert(Zeros(n) + [last], radix, radix) == Zeros(n) + [last]
  {
    ValueOfZeros(n, [last], radix);
    assert Value([last], radix) == last;
    if last > 0 {
      assert Digits(last, radix) == [last];
      LeadingZerosOfPadded(n, [last]);
    } else {
      assert Zeros(n) + [last] == Zeros(n + 1) + [];
      LeadingZerosOfPadded(n + 1, []);
      assert Zeros(n + 1) + [] == Zeros(n) + [last];
    }
  }

  lemma AppendDigit(v: nat, last: nat, radix: nat)
    requires radix >= 2 && last < radix && v > 0
    ensures Digits(v * radix + last, radix) == Digits(v, radix) + [last]
  {
    Positive(v, radix);
    DivMod(v, last, radix);
  }

  lemma Positive(v: nat, radix: nat)
    requires v > 0 && radix > 0
    ensures v * radix > 0
  {
  }

  lemma DivMod(v: nat, last: nat, radix: nat)
    requires last < radix
    ensures (v * radix + last) / radix == v && (v * radix + last) % radix == last
  {
    var n := v * radix + last;
    var q := n / radix - v;
    assert q * radix == last - n % radix;
    NoMultipleBetween(q, radix);
  }

  lemma NoMultipleBetween(q: int, radix: int)
    requires -radix < q * radix < radix
    ensures q == 0
  {
  }

  lemma {:induction false} AllZero(digits: seq<nat>)
    requires LeadingZeros(digits) == |digits|
    ensures digits == Zeros(|digits|)
  {
    if digits != [] { AllZero(digits[1..]); assert digits == [0] + digits[1..]; }
  }

  lemma {:induction false} LeadingZerosOfInit(digits: seq<nat>)
    requires digits != []
    ensures var init := digits[..|digits| - 1];
            LeadingZeros(digits) ==
              if LeadingZeros(init) < |init| then LeadingZeros(init)
              else |init| + (if digits[|init|] == 0 then 1 else 0)
  {
    if |digits| > 1 && digits[0] == 0 {
      assert digits[1..][..|digits| - 2] == digits[..|digits| - 1][1..];
      LeadingZerosOfInit(digits[1..]);
    }
  }

  /** Converting to another radix and back is the identity, leading zeros included. */
  lemma ConvertRoundTrip(digits: seq<nat>, from: nat, to: nat)
    requires from >= 2 && to >= 2 && DigitsBelow(digits, from)
    ensures DigitsBelow(Convert(digits, from, to), to)
    ensures Convert(Convert(digits, from, to), to, from) == digits
  {
    var n, v := LeadingZeros(digits), Value(digits, from);
    ValueOfDigits(v, to);
    ValueOfZeros(n, Digits(v, to), to);
    LeadingZerosOfPadded(n, Digits(v, to));
    Canonical(digits, from);
  }

  lemma ValueOfConvert(digits: seq<nat>, from: nat, to: nat)
    requires to >= 2
    ensures Value(Convert(digits, from, to), to) == Value(digits, from)
    ensures LeadingZeros(Convert(digits, from, to)) == LeadingZeros(digits)
  {
    var n, v := LeadingZeros(digits), Value(digits, from);
    ValueOfDigits(v, to);
    ValueOfZeros(n, Digits(v, to), to);
    LeadingZerosOfPadded(n, Digits(v, to));
  }

  // ---------------------------------------------------------------- decimal text

  predicate IsDecimal(s: string) {
    forall k :: 0 <= k < |s| ==> '0' <= s[k] <= '9'
  }

  function DigitChar(d: nat): (c: char)
    requires d < 10
    ensures '0' <= c <= '9' && c as int == '0' as int + d
  {
    ('0' as int + d) as char
  }

  function DecimalChars(digits: seq<nat>): (s: string)
    requires DigitsBelow(digits, 10)
    ensures |s| == |digits| && IsDecimal(s)
  {
    seq(|digits|, i requires 0 <= i < |digits| => DigitChar(digits[i]))
  }

  /** `str(n)` of a non-negative number. */
  function Decimal(n: nat): (s: string)
    ensures s != "" && IsDecimal(s)
  {
    if n == 0 then "0" else DecimalChars(Digits(n, 10))
  }

  /** `int(s)` of a decimal text. */
  function ParseDecimal(s: string): nat
    requires IsDecimal(s)
  {
    Value(seq(|s|, i requires 0 <= i < |s| => s[i] as int - '0' as int), 10)
  }

  lemma DecimalRoundTrip(n: nat)
    ensures ParseDecimal(Decimal(n)) == n
    ensures n > 0 ==> Decimal(n)[0] != '0'
  {
    ValueOfDigits(n, 10);
    if n > 0 {
      var s := Decimal(n);
      assert seq(|s|, i requires 0 <= i < |s| => s[i] as int - '0' as int) == Digits(n, 10);
    } else {
      assert seq(1, i requires 0 <= i < 1 => "0"[i] as int - '0' as int) == [0];
      assert Value([0], 10) == 0;
    }
  }

  lemma ParseRoundTrip(s: string)
    requires s != "" && IsDecimal(s) && s[0] != '0'
    ensures ParseDecimal(s) > 0 && Decimal(ParseDecimal(s)) == s
  {
    var digits := seq(|s|, i requires 0 <= i < |s| => s[i] as int - '0' as int);
    Canonical(digits, 10);
    assert LeadingZeros(digits) == 0;
    ShortestIs(digits, 10);
    SpelledDigits(digits, s);
  }

  lemma ShortestIs(digits: seq<nat>, radix: nat)
    requires radix >= 2 && digits != [] && Convert(digits, radix, radix) == digits && LeadingZeros(digits) == 0
    ensures Value(digits, radix) > 0 && Digits(Value(digits, radix), radix) == digits
  {
    assert Zeros(0) + Digits(Value(digits, radix), radix) == Digits(Value(digits, radix), radix);
  }

  lemma SpelledDigits(digits: seq<nat>, s: string)
    requires |digits| == |s| && IsDecimal(s) && DigitsBelow(digits, 10)
    requires forall i :: 0 <= i < |s| ==> digits[i] == s[i] as int - '0' as int
    ensures DecimalChars(digits) == s
  {
  }
}
