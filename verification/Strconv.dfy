/** Decimal printing and parsing as Go's strconv does it, on 64-bit integers. Strings are sequences of bytes. */
module Strconv {
  import opened Wrappers

  const MAX_INT64: int := 0x7fff_ffff_ffff_ffff
  const MIN_INT64: int := -0x8000_0000_0000_0000
  const MAX_UINT64: nat := 0xffff_ffff_ffff_ffff

  predicate IsInt64(n: int) { MIN_INT64 <= n <= MAX_INT64 }

  predicate IsDigit(c: char) { '0' <= c <= '9' }

  predicate AllDigits(s: string) { forall i :: 0 <= i < |s| ==> IsDigit(s[i]) }

  function DigitOf(c: char): nat
    requires IsDigit(c)
  {
    c as int - '0' as int
  }

  function CharOf(d: nat): (c: char)
    requires d < 10
    ensures IsDigit(c) && DigitOf(c) == d
  {
    ('0' as int + d) as char
  }

  function ValueOf(s: string): nat
    requires AllDigits(s)
  {
    if s == "" then 0 else 10 * ValueOf(s[..|s|-1]) + DigitOf(s[|s|-1])
  }

  function FormatNat(n: nat): (s: string)
    ensures s != "" && AllDigits(s)
  {
    if n < 10 then [CharOf(n)] else FormatNat(n / 10) + [CharOf(n % 10)]
  }

  function FormatInt(n: int): string { if n < 0 then "-" + FormatNat(-n) else FormatNat(n) }

  lemma {:induction false} ValueOfFormat(n: nat)
    ensures ValueOf(FormatNat(n)) == n
  {
    if n < 10 {
      assert [CharOf(n)][..0] == "";
    } else {
      ValueOfFormat(n / 10);
      var s := FormatNat(n);
      assert s[..|s|-1] == FormatNat(n / 10);
    }
  }

  lemma FormatNatInjective(a: nat, b: nat)
    requires FormatNat(a) == FormatNat(b)
    ensures a == b
  {
    ValueOfFormat(a);
    ValueOfFormat(b);
  }

  lemma FormatIntInjective(a: int, b: int)
    requires FormatInt(a) == FormatInt(b)
    ensures a == b
  {
    assert FormatInt(a)[0] == '-' <==> a < 0;
    assert FormatInt(b)[0] == '-' <==> b < 0;
    if a < 0 {
      assert FormatInt(a)[1..] == FormatNat(-a) && FormatInt(b)[1..] == FormatNat(-b);
      FormatNatInjective(-a, -b);
    } else {
      FormatNatInjective(a, b);
    }
  }

  // ---- parsing

  datatype NumError = ErrSyntax | ErrRange

  /** The digit loop of `ParseUint`. */
  function ScanDigits(s: string): Result<nat, NumError> {
    if s == "" then Ok(0) else
    match ScanDigits(s[..|s|-1])
    case Err(e) => Err(e)
    case Ok(n) =>
      var c := s[|s|-1];
      if !IsDigit(c) then Err(ErrSyntax)
      else if 10 * n + DigitOf(c) > MAX_UINT64 then Err(ErrRange)
      else Ok(10 * n + DigitOf(c))
  }

  function ParseUint(s: string): Result<nat, NumError> { if s == "" then Err(ErrSyntax) else ScanDigits(s) }

  /** The two results of `ParseInt`: out of range, the value is the nearest limit. */
  datatype ParsedInt = ParsedInt(value: int, error: Option<NumError>)

  function ParseInt(s: string): ParsedInt {
    var signed := s != "" && (s[0] == '-' || s[0] == '+');
    var neg := signed && s[0] == '-';
    match ParseUint(if signed then s[1..] else s)
    case Err(ErrSyntax) => ParsedInt(0, Some(ErrSyntax))
    case Err(ErrRange) => ParsedInt(if neg then MIN_INT64 else MAX_INT64, Some(ErrRange))
    case Ok(digits) =>
      var n: int := digits;
      if !neg && n > MAX_INT64 then ParsedInt(MAX_INT64, Some(ErrRange))
      else if neg && -n < MIN_INT64 then ParsedInt(MIN_INT64, Some(ErrRange))
      else ParsedInt(if neg then -n else n, None)
  }

  /** The loop computes the number the digits denote, as far as it fits. */
  lemma {:induction false} ScanDigitsCorrect(s: string)
    ensures AllDigits(s) ==> ScanDigits(s) == if ValueOf(s) <= MAX_UINT64 then Ok(ValueOf(s)) else Err(ErrRange)
    ensures ScanDigits(s).Ok? ==> AllDigits(s)
  {
    if s != "" {
      ScanDigitsCorrect(s[..|s|-1]);
      if ScanDigits(s).Ok? {
        forall i | 0 <= i < |s| ensures IsDigit(s[i]) { assert i < |s| - 1 ==> s[i] == s[..|s|-1][i]; }
      }
    }
  }

  lemma ParseUintFormat(n: nat)
    requires n <= MAX_UINT64
    ensures ParseUint(FormatNat(n)) == Ok(n)
  {
    ScanDigitsCorrect(FormatNat(n));
    ValueOfFormat(n);
  }

  /** Printing and parsing are inverse on exactly the 64-bit integers. */
  lemma ParseIntFormat(n: int)
    ensures ParseInt(FormatInt(n)) == ParsedInt(n, None) <==> IsInt64(n)
  {
    var m := if n < 0 then -n else n;
    ScanDigitsCorrect(FormatNat(m));
    ValueOfFormat(m);
    if n < 0 { assert FormatInt(n)[1..] == FormatNat(m); }
  }

  // ---- runs of digits in a text

  predicate Digits(s: string) { s != "" && AllDigits(s) }

  /** The longest prefix of digits. */
  function DigitSpan(s: string): (n: nat)
    ensures n <= |s| && AllDigits(s[..n]) && (n < |s| ==> !IsDigit(s[n]))
  {
    if s == "" || !IsDigit(s[0]) then 0 else 1 + DigitSpan(s[1..])
  }

  lemma {:induction false} DigitSpanExact(a: string, b: string)
    requires AllDigits(a) && (b == "" || !IsDigit(b[0]))
    ensures DigitSpan(a + b) == |a|
  {
    if a == "" {
      assert a + b == b;
    } else {
      assert (a + b)[1..] == a[1..] + b;
      DigitSpanExact(a[1..], b);
    }
  }

  /** A number has one decimal form without leading zeros. */
  lemma {:induction false} FormatOfValue(s: string)
    requires Digits(s) && (s[0] == '0' ==> |s| == 1)
    ensures FormatNat(ValueOf(s)) == s
  {
    if |s| == 1 {
      assert s[..0] == "" && s == [CharOf(DigitOf(s[0]))];
    } else {
      var front, d := s[..|s|-1], DigitOf(s[|s|-1]);
      FormatOfValue(front);
      LeadingDigit(front);
      assert ValueOf(s) / 10 == ValueOf(front) && ValueOf(s) % 10 == d;
      assert s == front + [CharOf(d)];
    }
  }

  lemma {:induction false} LeadingDigit(s: string)
    requires Digits(s) && s[0] != '0'
    ensures ValueOf(s) >= 1
  {
    if |s| > 1 { LeadingDigit(s[..|s|-1]); }
  }

  lemma {:induction false} NoLeadingZero(n: nat)
    ensures FormatNat(n)[0] == '0' ==> |FormatNat(n)| == 1
    ensures FormatNat(n)[0] == '0' <==> n == 0
  {
    if n >= 10 { NoLeadingZero(n / 10); }
  }
}
