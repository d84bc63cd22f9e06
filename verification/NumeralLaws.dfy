/** Exactly which texts are read as a number, and as which one. */
module NumeralLaws {
  import opened Basics
  import opened Numerals

  function Zeros(n: nat): (s: string)
    ensures |s| == n
  {
    if n == 0 then "" else Zeros(n - 1) + "0"
  }

  lemma {:induction false} ZerosBefore(n: nat, s: string)
    ensures DigitsValue(Zeros(n) + s, 10) == DigitsValue(s, 10)
  {
    if s != "" {
      var last := |s| - 1;
      assert (Zeros(n) + s)[..n + last] == Zeros(n) + s[..last];
      ZerosBefore(n, s[..last]);
    } else if n > 0 {
      assert Zeros(n) + "" == Zeros(n);
      assert Zeros(n)[..n - 1] == Zeros(n - 1) && Zeros(n - 1) + "" == Zeros(n - 1);
      ZerosBefore(n - 1, "");
    } else {
      assert Zeros(0) + "" == "";
    }
  }

  lemma CharOfDigit(c: char)
    ensures DigitValue(c, 10) >= 0 ==> DigitChar(DigitValue(c, 10)) == c
    ensures DigitValue(c, 10) >= 0 <==> '0' <= c <= '9'
  {}

  /** A text of digits is its value in decimal, with zeros in front. */
  lemma {:induction false} DigitsAreDecimal(s: string, n: nat) returns (zeros: nat)
    requires s != "" && DigitsValue(s, 10) == Some(n)
    ensures s == Zeros(zeros) + ToDecimal(n)
  {
    var last := |s| - 1;
    var d := DigitValue(s[last], 10);
    var m := DigitsValue(s[..last], 10).value;
    CharOfDigit(s[last]);
    assert s == s[..last] + [s[last]];
    if last == 0 {
      zeros := 0;
      assert ToDecimal(n) == [DigitChar(d)];
    } else {
      var front := DigitsAreDecimal(s[..last], m);
      if m == 0 {
        zeros := front + 1;
        assert ToDecimal(0) == "0";
      } else {
        zeros := front;
        assert n / 10 == m && n % 10 == d;
        assert Zeros(front) + (ToDecimal(m) + [DigitChar(d)]) == Zeros(front) + ToDecimal(m) + [DigitChar(d)];
      }
    }
  }

  /** A text is read as a number exactly if it is that number in decimal, zeros in front allowed. */
  lemma DecimalExactly(s: string, n: U64)
    ensures ParseU64(s) == Some(n) <==> exists zeros: nat :: s == Zeros(zeros) + ToDecimal(n)
  {
    if ParseU64(s) == Some(n) {
      var zeros := DigitsAreDecimal(s, n);
    }
    if zeros: nat :| s == Zeros(zeros) + ToDecimal(n) {
      DecimalDigits(n);
      ZerosBefore(zeros, ToDecimal(n));
    }
  }

  function UpperChar(c: char): char { if 'a' <= c <= 'f' then (c as int - 'a' as int + 'A' as int) as char else c }

  function Upper(s: string): (u: string)
    ensures |u| == |s|
  {
    seq(|s|, i requires 0 <= i < |s| => UpperChar(s[i]))
  }

  lemma HexChar(c: char)
    ensures DigitValue(c, 16) >= 0 ==> UpperChar(c) == DigitChar(DigitValue(c, 16))
    ensures forall d | 0 <= d < 16 :: UpperChar(c) == DigitChar(d) ==> DigitValue(c, 16) == d
  {}

  lemma {:induction false} HexReads(s: string, n: nat)
    ensures DigitsValue(s, 16) == Some(n) <==> n < Power16(|s|) && Upper(s) == ToHex(n, |s|)
  {
    hide DigitValue, DigitChar, UpperChar;
    if s != "" {
      var last := |s| - 1;
      var front := s[..last];
      assert Upper(s) == Upper(front) + [UpperChar(s[last])];
      HexChar(s[last]);
      HexReads(front, n / 16);
      assert ToHex(n, |s|) == ToHex(n / 16, last) + [DigitChar(n % 16)];
      assert ToHex(n, |s|)[..last] == ToHex(n / 16, last) && Upper(s)[..last] == Upper(front);
      assert ToHex(n, |s|)[last] == DigitChar(n % 16) && Upper(s)[last] == UpperChar(s[last]);
      if DigitsValue(front, 16).Some? && DigitValue(s[last], 16) >= 0 {
        var m, d := DigitsValue(front, 16).value, DigitValue(s[last], 16);
        DivRem(m * 16 + d, 16, m, d);
      }
    }
  }

  /** A text is read as a hexadecimal number exactly if it is that number in as many digits, in either letter case. */
  lemma HexExactly(s: string, n: nat)
    ensures ParseHex32(s) == Some(n) <==> s != "" && n <= MAX_U32 && n < Power16(|s|) && Upper(s) == ToHex(n, |s|)
  {
    HexReads(s, n);
  }
}
