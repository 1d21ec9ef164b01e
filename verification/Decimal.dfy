/** Decimal numbers as the engine prints and parses them (Rust's integer `Display` and `FromStr`). */
module Decimal {
  import opened Common

  const U64_LIMIT: int := 0x1_0000_0000_0000_0000
  const I32_LIMIT: int := 0x8000_0000

  predicate IsDigit(c: char) { '0' <= c <= '9' }

  predicate AllDigits(s: string) {
    forall i :: 0 <= i < |s| ==> IsDigit(s[i])
  }

  function DigitValue(c: char): nat
    requires IsDigit(c)
  {
    (c - '0') as int
  }

  function DigitChar(d: nat): (c: char)
    requires d < 10
    ensures IsDigit(c) && DigitValue(c) == d
  {
    '0' + d as char
  }

  function Print(n: nat): (s: string)
    ensures s != "" && AllDigits(s)
  {
    if n < 10 then [DigitChar(n)] else Print(n / 10) + [DigitChar(n % 10)]
  }

  function Value(digits: string): nat
    requires AllDigits(digits)
  {
    if digits == "" then 0
    else
      var n := |digits| - 1;
      10 * Value(digits[..n]) + DigitValue(digits[n])
  }

  /** An optional `+`, at least one digit, and a value below `limit`. */
  function ParseUnsigned(s: string, limit: nat): Option<nat> {
    var digits := if s != "" && s[0] == '+' then s[1..] else s;
    if digits == "" || !AllDigits(digits) || Value(digits) >= limit then None else Some(Value(digits))
  }

  function ParseU64(s: string): Option<nat> {
    ParseUnsigned(s, U64_LIMIT)
  }

  function PrintSigned(n: int): string {
    if n < 0 then "-" + Print(-n) else Print(n)
  }

  function ParseI32(s: string): Option<int> {
    if s != "" && s[0] == '-' then
      var digits := s[1..];
      if digits == "" || !AllDigits(digits) || Value(digits) > I32_LIMIT then None
      else
        var v: int := Value(digits);
        Some(-v)
    else
      match ParseUnsigned(s, I32_LIMIT)
      case Some(n) => Some(n)
      case None => None
  }

  lemma {:induction false} ValueOfPrint(n: nat)
    ensures Value(Print(n)) == n
  {
    if n < 10 {
      assert Print(n)[..0] == "";
    } else {
      ValueOfPrint(n / 10);
      assert Print(n)[..|Print(n)| - 1] == Print(n / 10);
    }
  }

  /** A printed number is read back exactly when it fits the type. */
  lemma ParseOfPrint(n: nat, limit: nat)
    ensures ParseUnsigned(Print(n), limit) == if n < limit then Some(n) else None
  {
    ValueOfPrint(n);
    assert IsDigit(Print(n)[0]);
  }

  /** A printed number is read back if it fits 64 bits without a sign. */
  lemma ParseU64OfPrint(n: nat)
    ensures ParseU64(Print(n)) == if n <= 18_446_744_073_709_551_615 then Some(n) else None
  {
    ParseOfPrint(n, U64_LIMIT);
  }

  /** A printed number is read back if it fits 32 bits with a sign; only negative ones have a minus sign in front. */
  lemma ParseI32OfPrint(n: int)
    ensures ParseI32(PrintSigned(n)) == if -2_147_483_648 <= n <= 2_147_483_647 then Some(n) else None
    ensures PrintSigned(n)[0] == '-' <==> n < 0
  {
    hide Print, Value;
    if n < 0 {
      ValueOfPrint(-n);
      assert PrintSigned(n)[1..] == Print(-n);
    } else {
      ParseOfPrint(n, I32_LIMIT);
      assert IsDigit(Print(n)[0]);
    }
  }
}
