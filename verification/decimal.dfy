/**
 * Decimal text as Ruby renders and parses it: `Integer#to_s` (used when a
 * warning count is interpolated into a summary line) and `String#to_i` (used
 * when a configured browser timeout becomes a profile preference).
 */
module Decimal {

  predicate IsDigit(c: char) {
    '0' <= c <= '9'
  }

  predicate AllDigits(s: string) {
    forall i :: 0 <= i < |s| ==> IsDigit(s[i])
  }

  /** The characters Ruby's `String#to_i` skips before the number. */
  predicate IsSpace(c: char) {
    c == ' ' || c == '\t' || c == '\n' || c == '\r' || c as int == 11 || c as int == 12
  }

  function DigitValue(c: char): (d: nat)
    requires IsDigit(c)
    ensures d < 10
  {
    c as int - '0' as int
  }

  function DigitChar(d: nat): (c: char)
    requires d < 10
    ensures IsDigit(c) && DigitValue(c) == d
  {
    ('0' as int + d) as char
  }

  /** The number a string of decimal digits denotes, most significant digit first. */
  function Value(s: string): nat
    requires AllDigits(s)
    decreases |s|
  {
    if |s| == 0 then 0 else 10 * Value(s[..|s| - 1]) + DigitValue(s[|s| - 1])
  }

  /** `Integer#to_s` of a natural number: nonempty, all digits, no leading zero. */
  function Show(n: nat): (s: string)
    ensures |s| >= 1 && AllDigits(s)
    ensures s[0] == '0' ==> n == 0
    decreases n
  {
    if n < 10 then [DigitChar(n)] else Show(n / 10) + [DigitChar(n % 10)]
  }

  /** `Integer#to_s` of any integer. */
  function ShowInt(i: int): (s: string)
    ensures |s| >= 1
    ensures i < 0 <==> s[0] == '-'
  {
    if i < 0 then "-" + Show(-i) else Show(i)
  }

  /** Reading back what `Show` writes gives the number again. */
  lemma {:induction false} ValueOfShow(n: nat)
    ensures Value(Show(n)) == n
    decreases n
  {
    var s := Show(n);
    if n >= 10 {
      assert s[..|s| - 1] == Show(n / 10);
      ValueOfShow(n / 10);
    }
  }

  /** Digits without a leading zero denote a positive number. */
  lemma {:induction false} ValuePositive(d: string)
    requires |d| > 0 && AllDigits(d) && d[0] != '0'
    ensures Value(d) > 0
    decreases |d|
  {
    if |d| > 1 {
      ValuePositive(d[..|d| - 1]);
    }
  }

  /** `Show` writes back any digit string without a leading zero (or "0" itself). */
  lemma {:induction false} ShowOfValue(d: string)
    requires |d| > 0 && AllDigits(d) && (d[0] == '0' ==> |d| == 1)
    ensures Show(Value(d)) == d
    decreases |d|
  {
    var c := d[|d| - 1];
    assert DigitChar(DigitValue(c)) == c;
    if |d| == 1 {
      assert Value(d) == 10 * Value(d[..0]) + DigitValue(c);
      assert d == [c];
    } else {
      var init := d[..|d| - 1];
      ValuePositive(init);
      ShowOfValue(init);
      var n := Value(d);
      assert n == 10 * Value(init) + DigitValue(c);
      assert n / 10 == Value(init) && n % 10 == DigitValue(c);
      assert d == init + [c];
    }
  }

  /** The longest prefix of `s` made of digits. */
  function DigitPrefix(s: string): (p: string)
    ensures AllDigits(p)
    ensures p <= s
    ensures |p| < |s| ==> !IsDigit(s[|p|])
    decreases |s|
  {
    if |s| > 0 && IsDigit(s[0]) then [s[0]] + DigitPrefix(s[1..]) else []
  }

  /** `s` with its leading white space removed. */
  function SkipSpace(s: string): (t: string)
    ensures |t| <= |s| && t == s[|s| - |t|..]
    ensures forall i :: 0 <= i < |s| - |t| ==> IsSpace(s[i])
    ensures |t| > 0 ==> !IsSpace(t[0])
    decreases |s|
  {
    if |s| > 0 && IsSpace(s[0]) then SkipSpace(s[1..]) else s
  }

  /**
   * Ruby's `String#to_i`: leading white space is skipped, then an optional
   * sign, then as many decimal digits as follow; anything after them is
   * ignored, and a string with no digits there reads as 0.
   */
  function ToI(s: string): (i: int)
    ensures |s| > 0 && AllDigits(s) ==> i == Value(s)
    ensures var t := SkipSpace(s);
      (|t| == 0 || !(IsDigit(t[0]) || t[0] == '-' || t[0] == '+')) ==> i == 0
    ensures i < 0 ==> |SkipSpace(s)| > 0 && SkipSpace(s)[0] == '-'
  {
    var t := SkipSpace(s);
    assert |s| > 0 && AllDigits(s) ==> t == s && DigitPrefix(s) == s by {
      if |s| > 0 && AllDigits(s) {
        assert !IsSpace(s[0]);
        DigitPrefixOfDigits(s);
      }
    }
    if |t| > 0 && t[0] == '-' then 0 - Value(DigitPrefix(t[1..])) as int
    else if |t| > 0 && t[0] == '+' then Value(DigitPrefix(t[1..]))
    else Value(DigitPrefix(t))
  }

  lemma {:induction false} DigitPrefixOfDigits(s: string)
    requires AllDigits(s)
    ensures DigitPrefix(s) == s
    decreases |s|
  {
    if |s| > 0 {
      DigitPrefixOfDigits(s[1..]);
    }
  }

  /** `to_i` undoes `to_s` for every integer. */
  lemma ToIOfShowInt(i: int)
    ensures ToI(ShowInt(i)) == i
  {
    var n: nat := if i < 0 then -i else i;
    var digits := Show(n);
    var s := ShowInt(i);
    DigitPrefixOfDigits(digits);
    ValueOfShow(n);
    assert IsDigit(digits[0]);
    if i < 0 {
      assert s == "-" + digits;
      assert !IsSpace(s[0]);
      assert SkipSpace(s) == s;
      assert s[1..] == digits;
    } else {
      assert s == digits;
      assert !IsSpace(s[0]) && s[0] != '-' && s[0] != '+';
      assert SkipSpace(s) == s;
    }
  }

  lemma {:induction false} DigitPrefixPrefix(digits: string, rest: string)
    requires AllDigits(digits)
    requires |rest| > 0 ==> !IsDigit(rest[0])
    ensures DigitPrefix(digits + rest) == digits
    decreases |digits|
  {
    if |digits| > 0 {
      assert (digits + rest)[1..] == digits[1..] + rest;
      DigitPrefixPrefix(digits[1..], rest);
    }
  }
}
