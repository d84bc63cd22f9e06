/**
 * Number text on the wire: std::to_string, std::from_chars over a whole field, and the
 * "%08X" checksum format.
 */
module Numerals {
  import opened Basics

  const MAX_U32: int := 0xFFFF_FFFF

  // ---- Digits --------------------------------------------------------------

  function DigitChar(d: int): (c: char)
    requires 0 <= d < 16
  {
    if d < 10 then (d + '0' as int) as char else (d - 10 + 'A' as int) as char
  }

  /** The value of a digit in base 10 or 16 (either letter case), or -1. */
  function DigitValue(c: char, base: int): (d: int)
    requires base == 10 || base == 16
    ensures -1 <= d < base
  {
    if '0' <= c <= '9' then c as int - '0' as int
    else if base == 16 && 'A' <= c <= 'F' then c as int - 'A' as int + 10
    else if base == 16 && 'a' <= c <= 'f' then c as int - 'a' as int + 10
    else -1
  }

  lemma DigitRoundTrip(d: int, base: int)
    requires base == 10 || base == 16
    requires 0 <= d < base
    ensures DigitValue(DigitChar(d), base) == d
    ensures '!' <= DigitChar(d) <= '~' && DigitChar(d) != '='
  {}

  // ---- Numbers -------------------------------------------------------------

  function ToDecimal(n: nat): string {
    if n < 10 then [DigitChar(n)] else ToDecimal(n / 10) + [DigitChar(n % 10)]
  }

  /** The low digits of n in base 16, most significant first. */
  function ToHex(n: nat, digits: nat): (s: string)
    ensures |s| == digits
  {
    if digits == 0 then "" else ToHex(n / 16, digits - 1) + [DigitChar(n % 16)]
  }

  function DigitsValue(s: string, base: int): (r: Option<nat>)
    requires base == 10 || base == 16
  {
    if s == "" then Some(0)
    else
      var front, d := DigitsValue(s[..|s| - 1], base), DigitValue(s[|s| - 1], base);
      if front.None? || d < 0 then None else Some(front.value * base + d)
  }

  /** std::from_chars, accepted only when it consumes the whole non-empty text in range. */
  function FromChars(s: string, base: int, maximum: int): (r: Option<int>)
    requires base == 10 || base == 16
    ensures r.Some? ==> 0 <= r.value <= maximum
  {
    if s == "" then None
    else
      match DigitsValue(s, base)
      case None => None
      case Some(n) => if n <= maximum then Some(n) else None
  }

  function ParseU64(s: string): Option<U64> { FromChars(s, 10, MAX_U64) }
  function ParseHex32(s: string): Option<int> { FromChars(s, 16, MAX_U32) }

  // ---- Round trips ---------------------------------------------------------

  lemma {:induction false} DecimalDigits(n: nat)
    ensures ToDecimal(n) != ""
    ensures DigitsValue(ToDecimal(n), 10) == Some(n)
    ensures forall c <- ToDecimal(n) :: '!' <= c <= '~' && c != '='
  {
    hide DigitChar, DigitValue;
    DigitRoundTrip(n % 10, 10);
    if n < 10 {
      DigitRoundTrip(n, 10);
      assert ToDecimal(n)[..0] == "";
    } else {
      DecimalDigits(n / 10);
      var s := ToDecimal(n);
      assert s[..|s| - 1] == ToDecimal(n / 10);
    }
  }

  lemma DecimalRoundTrip(n: U64)
    ensures ParseU64(ToDecimal(n)) == Some(n)
    ensures ToDecimal(n) != "" && forall c <- ToDecimal(n) :: '!' <= c <= '~' && c != '='
  {
    DecimalDigits(n);
  }

  lemma {:induction false} HexDigits(n: nat, digits: nat)
    ensures forall c <- ToHex(n, digits) :: '!' <= c <= '~' && c != '='
    ensures n < Power16(digits) ==> DigitsValue(ToHex(n, digits), 16) == Some(n)
  {
    hide DigitChar, DigitValue;
    if digits > 0 {
      HexDigits(n / 16, digits - 1);
      DigitRoundTrip(n % 16, 16);
      var s := ToHex(n, digits);
      assert s[..|s| - 1] == ToHex(n / 16, digits - 1);
    }
  }

  function Power16(k: nat): nat {
    if k == 0 then 1 else 16 * Power16(k - 1)
  }

  lemma HexRoundTrip(n: nat)
    requires n <= MAX_U32
    ensures ParseHex32(ToHex(n, 8)) == Some(n)
    ensures forall c <- ToHex(n, 8) :: '!' <= c <= '~' && c != '='
  {
    assert Power16(2) == 0x100;
    assert Power16(4) == 0x1_0000;
    assert Power16(6) == 0x100_0000;
    assert Power16(8) == 0x1_0000_0000;
    HexDigits(n, 8);
  }
}
