/** Printing and reading unsigned numbers in base 10 and 16, as printf and strtoull do. */
module Numerals {
  import opened Wrappers

  const DIGITS := "0123456789abcdef"

  function Power(b: nat, k: nat): nat
  {
    if k == 0 then 1 else b * Power(b, k - 1)
  }

  /** The usual numeral, without leading zeros. */
  function Numeral(b: nat, n: nat): string
    requires 2 <= b <= 16
  {
    if n < b then [DIGITS[n]] else Numeral(b, n / b) + [DIGITS[n % b]]
  }

  function Dec(n: nat): string { Numeral(10, n) }
  function Hex(n: nat): string { Numeral(16, n) }

  lemma {:induction false} NumeralLength(b: nat, n: nat, k: nat)
    requires (b == 10 || b == 16) && k >= 1 && n < Power(b, k)
    ensures 1 <= |Numeral(b, n)| <= k
  {
    if n >= b {
      assert k > 1 by {
        assert Power(b, 1) == b * Power(b, 0);
      }
      QuotientBelow(n, b, Power(b, k - 1));
      NumeralLength(b, n / b, k - 1);
    }
  }

  lemma QuotientBelow(n: nat, b: nat, p: nat)
    requires (b == 10 || b == 16) && n < b * p
    ensures n / b < p
  {
    if b == 10 {
      assert n / 10 < p;
    } else {
      assert n / 16 < p;
    }
  }

  lemma QuotientAndRemainder(n: nat, b: nat)
    requires b == 10 || b == 16
    ensures n / b * b + n % b == n
  {
    if b == 10 {
      assert n / 10 * 10 + n % 10 == n;
    } else {
      assert n / 16 * 16 + n % 16 == n;
    }
  }

  /** One digit more at the end. */
  lemma ReadLastDigit(b: nat, front: string, d: nat)
    requires d < b <= 16
    requires front == "" || AllDigits(b, front)
    ensures AllDigits(b, front + [DIGITS[d]])
    ensures ValueOf(b, front + [DIGITS[d]]) == ValueOf(b, front) * b + d
  {
    var s := front + [DIGITS[d]];
    DigitsReadBack(d);
    assert s[..|s| - 1] == front;
  }

  lemma {:induction false} NumeralChars(b: nat, n: nat)
    requires 2 <= b <= 16
    ensures forall c | c in Numeral(b, n) :: c in DIGITS
  {
    if n >= b {
      NumeralChars(b, n / b);
    }
  }

  // ---- reading

  /** The value of a digit in either case, None for any other character. */
  function DigitValue(c: char): Option<nat>
  {
    if '0' <= c <= '9' then Some(c as int - '0' as int)
    else if 'a' <= c <= 'f' then Some(c as int - 'a' as int + 10)
    else if 'A' <= c <= 'F' then Some(c as int - 'A' as int + 10)
    else None
  }

  predicate IsDigit(b: nat, c: char)
  {
    DigitValue(c).Some? && DigitValue(c).value < b
  }

  /** A non-empty string of digits. */
  predicate AllDigits(b: nat, s: string)
  {
    s != "" && forall c | c in s :: IsDigit(b, c)
  }

  /** The value of the digits of `s`; other characters are skipped. */
  function ValueOf(b: nat, s: string): nat
  {
    if s == "" then 0
    else
      var last := DigitValue(s[|s| - 1]);
      ValueOf(b, s[..|s| - 1]) * b + (if last.Some? then last.value else 0)
  }

  lemma DigitsReadBack(d: nat)
    requires d < 16
    ensures DigitValue(DIGITS[d]) == Some(d)
  {
  }

  /** Reading what was printed gives the number back. */
  lemma {:induction false} PrintThenRead(b: nat, n: nat)
    requires b == 10 || b == 16
    ensures AllDigits(b, Numeral(b, n)) && ValueOf(b, Numeral(b, n)) == n
  {
    if n < b {
      ReadLastDigit(b, "", n);
      assert "" + [DIGITS[n]] == [DIGITS[n]];
    } else {
      PrintThenRead(b, n / b);
      ReadLastDigit(b, Numeral(b, n / b), n % b);
      QuotientAndRemainder(n, b);
    }
  }

  // ---- strtoull and parse_ull

  const ULLONG_MAX := 0xFFFF_FFFF_FFFF_FFFF

  /** How many leading characters are digits. */
  function DigitRun(b: nat, s: string): (n: nat)
    ensures n <= |s|
  {
    if s == "" || !IsDigit(b, s[0]) then 0 else 1 + DigitRun(b, s[1..])
  }

  /** What strtoull reports for text without leading blanks or sign: value, end position, overflow. */
  datatype Converted = Converted(value: nat, end: nat, overflow: bool)

  function Strtoull(s: string, b: nat): Converted
  {
    var start :=
      if b == 16 && |s| > 2 && s[0] == '0' && (s[1] == 'x' || s[1] == 'X') && IsDigit(16, s[2]) then 2 else 0;
    var run := DigitRun(b, s[start..]);
    var v := ValueOf(b, s[start..start + run]);
    Converted(v, if run == 0 then 0 else start + run, v > ULLONG_MAX)
  }

  predicate IsAsciiSpace(c: char)
  {
    c == ' ' || c == '\t' || c == '\n' || c == '\r' || c == '\U{C}' || c == '\U{B}'
  }

  function ParseUll(s: string): Option<nat>
  {
    if s == "" || s[0] == '+' || s[0] == '-' || IsAsciiSpace(s[0]) then None
    else
      var b := if s[0] == '0' && |s| > 1 && (s[1] == 'x' || s[1] == 'X') then 16 else 10;
      var r := Strtoull(s, b);
      if r.overflow || r.end == 0 || r.end != |s| then None else Some(r.value)
  }

  /** The option values that are numbers: decimal digits, or 0x and hexadecimal digits. */
  predicate Denotes(s: string, v: nat)
  {
    && v <= ULLONG_MAX
    && (|| (AllDigits(10, s) && v == ValueOf(10, s))
        || (&& |s| > 2 && s[0] == '0' && (s[1] == 'x' || s[1] == 'X')
            && AllDigits(16, s[2..]) && v == ValueOf(16, s[2..])))
  }

  lemma {:induction false} DigitRunMeans(b: nat, s: string)
    ensures DigitRun(b, s) == |s| <==> forall c | c in s :: IsDigit(b, c)
    ensures DigitRun(b, s) > 0 <==> s != "" && IsDigit(b, s[0])
  {
    if s != "" {
      assert s == [s[0]] + s[1..];
      DigitRunMeans(b, s[1..]);
    }
  }

  /** parse_ull accepts exactly the numerals that fit 64 bits, with their value. */
  lemma ParseUllMeans(s: string, v: nat)
    ensures ParseUll(s) == Some(v) <==> Denotes(s, v)
  {
    if s != "" {
      var hexPrefix := s[0] == '0' && |s| > 1 && (s[1] == 'x' || s[1] == 'X');
      assert s[0..] == s;
      if hexPrefix {
        assert !AllDigits(10, s) by {
          assert s[1] in s && !IsDigit(10, s[1]);
        }
        if |s| > 2 && IsDigit(16, s[2]) {
          DigitRunMeans(16, s[2..]);
          assert s[2..2 + (|s| - 2)] == s[2..];
        } else {
          DigitRunMeans(16, s);
          assert s[1] in s && !IsDigit(16, s[1]);
          assert |s| > 2 ==> s[2..][0] == s[2] && s[2] in s[2..];
        }
      } else {
        DigitRunMeans(10, s);
        assert s[..|s|] == s;
        assert s[0] in s;
      }
    }
  }

  /** Every 64-bit number can be given in either base. */
  lemma EveryNumberHasNumerals(n: nat)
    requires n <= ULLONG_MAX
    ensures ParseUll(Dec(n)) == Some(n) && ParseUll("0x" + Hex(n)) == Some(n)
  {
    PrintThenRead(10, n);
    PrintThenRead(16, n);
    assert ("0x" + Hex(n))[2..] == Hex(n);
    ParseUllMeans(Dec(n), n);
    ParseUllMeans("0x" + Hex(n), n);
  }
}
