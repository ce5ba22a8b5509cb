/**
 * `std::stoi` as the parser uses it on numeric lexemes: skip leading white
 * space, read an optional sign and the longest run of decimal digits after
 * it, and convert. No digit is an `invalid_argument` error; a value outside
 * the 32-bit range is an `out_of_range` error. Everything after the digits
 * is ignored, so `0x10` converts to 0 and `1.5` to 1.
 */
module Numbers {
  import opened Lexer
  import opened LayoutModel

  /** The outcome of a conversion: a value, or the exception `std::stoi` throws. */
  datatype Conversion = Converted(value: int32) | InvalidArgument | OutOfRange

  function DigitValue(c: char): (d: nat)
    requires IsDigit(c)
    ensures d < 10
  {
    c as int - '0' as int
  }

  function DigitChar(d: nat): (c: char)
    requires d < 10
    ensures IsDigit(c) && DigitValue(c) == d
  {
    (d + '0' as int) as char
  }

  /** The number a string of decimal digits denotes, most significant first. */
  function DecimalValue(s: string): nat
    requires forall k :: 0 <= k < |s| ==> IsDigit(s[k])
  {
    if |s| == 0 then 0 else 10 * DecimalValue(s[..|s| - 1]) + DigitValue(s[|s| - 1])
  }

  /** The shortest decimal spelling of `n`. */
  function DecimalText(n: nat): (s: string)
    ensures |s| > 0
    ensures forall k :: 0 <= k < |s| ==> IsDigit(s[k])
  {
    if n < 10 then [DigitChar(n)] else DecimalText(n / 10) + [DigitChar(n % 10)]
  }

  /** Reading back the decimal spelling of a number gives the number. */
  lemma {:induction false} DecimalRoundTrip(n: nat)
    ensures DecimalValue(DecimalText(n)) == n
    decreases n
  {
    if n >= 10 {
      DecimalRoundTrip(n / 10);
      var s := DecimalText(n);
      assert s[..|s| - 1] == DecimalText(n / 10);
    }
  }

  /** Where a conversion is: before the number (skipping white space),
      just after a sign, or inside the digits. */
  datatype Phase = Blank | Signed | InDigits

  /** The value a sign and a magnitude denote, if it fits in 32 bits. */
  function InRange(negative: bool, magnitude: nat): (r: Conversion)
    ensures r.Converted? <==> (if negative then magnitude <= -Int32Min else magnitude <= Int32Max)
    ensures r.Converted? ==> r.value as int == if negative then 0 - magnitude as int else magnitude
    ensures !r.InvalidArgument?
  {
    var v: int := if negative then 0 - magnitude as int else magnitude;
    if Int32Min <= v <= Int32Max then Converted(v as int32) else OutOfRange
  }

  /** The conversion loop from index `i`: white space is skipped before an
      optional sign, then digits accumulate into `magnitude` until the first
      other character or the end. */
  function StoiFrom(s: string, i: nat, phase: Phase, negative: bool, magnitude: nat): Conversion
    decreases |s| - i
  {
    if i < |s| && phase == Blank && IsSpace(s[i]) then StoiFrom(s, i + 1, Blank, false, 0)
    else if i < |s| && phase == Blank && (s[i] == '-' || s[i] == '+') then StoiFrom(s, i + 1, Signed, s[i] == '-', 0)
    else if i < |s| && IsDigit(s[i]) then StoiFrom(s, i + 1, InDigits, negative, 10 * magnitude + DigitValue(s[i]))
    else if phase != InDigits then InvalidArgument
    else InRange(negative, magnitude)
  }

  /** `std::stoi(s)` in base 10. */
  function Stoi(s: string): Conversion {
    StoiFrom(s, 0, Blank, false, 0)
  }

  /** Digits accumulate to the value of the digit string read so far. */
  lemma {:induction false} StoiDigits(d: string, rest: string, k: nat, negative: bool)
    requires forall m :: 0 <= m < |d| ==> IsDigit(d[m])
    requires 0 < k <= |d|
    requires rest == [] || !IsDigit(rest[0])
    ensures StoiFrom(d + rest, k, InDigits, negative, DecimalValue(d[..k])) == InRange(negative, DecimalValue(d))
    decreases |d| - k
  {
    var s := d + rest;
    if k < |d| {
      assert s[k] == d[k];
      assert d[..k + 1][..k] == d[..k];
      StoiDigits(d, rest, k + 1, negative);
    } else {
      assert d[..k] == d;
      assert k == |s| || s[k] == rest[0];
    }
  }

  /** A digit-initial lexeme converts to the value of its leading digits,
      whatever follows them; a value beyond 32 bits is out of range. */
  lemma StoiLeadingDigits(d: string, rest: string)
    requires |d| > 0 && forall k :: 0 <= k < |d| ==> IsDigit(d[k])
    requires rest == [] || !IsDigit(rest[0])
    ensures Stoi(d + rest)
         == if DecimalValue(d) <= Int32Max then Converted(DecimalValue(d) as int32) else OutOfRange
  {
    var s := d + rest;
    assert s[0] == d[0];
    StoiFirstDigit(s);
    assert d[..1][..0] == [];
    assert DecimalValue(d[..1]) == DigitValue(d[0]);
    StoiDigits(d, rest, 1, false);
  }

  /** A leading digit starts the digits at once. */
  lemma StoiFirstDigit(s: string)
    requires |s| > 0 && IsDigit(s[0])
    ensures Stoi(s) == StoiFrom(s, 1, InDigits, false, DigitValue(s[0]))
  {
    assert !IsSpace(s[0]) && s[0] != '-' && s[0] != '+';
  }

  /** Decimal text of a number in range converts back to that number; text
      of a larger number is out of range. */
  lemma StoiDecimalText(n: nat)
    ensures Stoi(DecimalText(n)) == if n <= Int32Max then Converted(n as int32) else OutOfRange
  {
    DecimalRoundTrip(n);
    StoiLeadingDigits(DecimalText(n), []);
    assert DecimalText(n) + [] == DecimalText(n);
  }
}
