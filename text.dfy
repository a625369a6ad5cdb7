/**
 * The few Python string operations the core relies on, restricted to ASCII:
 * `str.strip()`, `str.lower()`, decimal formatting of integers (`f"{n}"`) and
 * `int(text)` on a sign-and-digits text.
 */
module Text {
  import opened Wrappers

  /** The ASCII characters `str.strip()` removes: space, \t \n \v \f \r and \x1c-\x1f. */
  predicate IsSpace(c: char) {
    var k := c as int;
    k == 32 || 9 <= k <= 13 || 28 <= k <= 31
  }

  predicate IsDigit(c: char) { '0' <= c <= '9' }

  predicate IsAsciiLetter(c: char) { 'a' <= c <= 'z' || 'A' <= c <= 'Z' }

  /** `s.lstrip()`. */
  function StripLeft(s: string): (r: string)
    ensures |r| <= |s| && r == s[|s| - |r|..]
    ensures forall k :: 0 <= k < |s| - |r| ==> IsSpace(s[k])
    ensures r == [] || !IsSpace(r[0])
  {
    if s != [] && IsSpace(s[0]) then StripLeft(s[1..]) else s
  }

  /** `s.rstrip()`. */
  function StripRight(s: string): (r: string)
    ensures |r| <= |s| && r == s[..|r|]
    ensures forall k :: |r| <= k < |s| ==> IsSpace(s[k])
    ensures r == [] || !IsSpace(r[|r| - 1])
  {
    if s != [] && IsSpace(s[|s| - 1]) then StripRight(s[..|s| - 1]) else s
  }

  /** `s.strip()`: the longest slice of `s` that neither starts nor ends with white space. */
  function Strip(s: string): (r: string)
    ensures |r| <= |s|
    ensures r == [] || (!IsSpace(r[0]) && !IsSpace(r[|r| - 1]))
  {
    StripRight(StripLeft(s))
  }

  /** A text with no white space at either end is its own strip. */
  lemma {:induction false} StripUnchanged(s: string)
    requires s == [] || (!IsSpace(s[0]) && !IsSpace(s[|s| - 1]))
    ensures Strip(s) == s
  {
    assert StripLeft(s) == s;
  }

  /** `str.strip()` is idempotent. */
  lemma StripIdempotent(s: string)
    ensures Strip(Strip(s)) == Strip(s)
  {
    StripUnchanged(Strip(s));
  }

  function LowerChar(c: char): (d: char)
    ensures IsAsciiLetter(c) ==> 'a' <= d <= 'z'
    ensures !('A' <= c <= 'Z') ==> d == c
  {
    if 'A' <= c <= 'Z' then (c as int + 32) as char else c
  }

  /** `s.lower()` on ASCII: every upper-case letter replaced by its lower-case form. */
  function Lower(s: string): (r: string)
    ensures |r| == |s|
    ensures forall k :: 0 <= k < |s| ==> r[k] == LowerChar(s[k])
  {
    seq(|s|, k requires 0 <= k < |s| => LowerChar(s[k]))
  }

  function DigitChar(d: nat): (c: char)
    requires d < 10
    ensures IsDigit(c)
  {
    ('0' as int + d) as char
  }

  function DigitValue(c: char): (d: nat)
    requires IsDigit(c)
    ensures d < 10 && DigitChar(d) == c
  {
    c as int - '0' as int
  }

  predicate AllDigits(s: string) { forall k :: 0 <= k < |s| ==> IsDigit(s[k]) }

  /** The value of a run of decimal digits. */
  function DigitsValue(s: string): nat
    requires AllDigits(s)
  {
    if s == [] then 0 else DigitsValue(s[..|s| - 1]) * 10 + DigitValue(s[|s| - 1])
  }

  /** `f"{n}"` for a natural number: its shortest decimal form. */
  function NatToDecimal(n: nat): (s: string)
    ensures |s| >= 1 && AllDigits(s)
    ensures |s| > 1 ==> s[0] != '0'
  {
    if n < 10 then [DigitChar(n)] else NatToDecimal(n / 10) + [DigitChar(n % 10)]
  }

  /** `f"{n}"` for any integer. */
  function IntToDecimal(n: int): (s: string)
    ensures |s| >= 1 && !IsSpace(s[0]) && !IsSpace(s[|s| - 1])
  {
    if n < 0 then "-" + NatToDecimal(-n) else NatToDecimal(n)
  }

  /**
   * `int(text)` on the grammar this model accepts: optional surrounding white space,
   * an optional sign, then one or more ASCII digits. `None` stands for the ValueError.
   */
  function ParseInt(text: string): Option<int> {
    var t := Strip(text);
    if t == [] then None
    else if t[0] == '-' || t[0] == '+' then
      var digits := t[1..];
      if digits != [] && AllDigits(digits) then
        Some(if t[0] == '-' then -(DigitsValue(digits) as int) else DigitsValue(digits) as int)
      else None
    else if AllDigits(t) then Some(DigitsValue(t) as int)
    else None
  }

  lemma {:induction false} DigitsOfDecimal(n: nat)
    ensures DigitsValue(NatToDecimal(n)) == n
  {
    if n >= 10 {
      var s := NatToDecimal(n);
      var prefix := NatToDecimal(n / 10);
      assert s[..|s| - 1] == prefix;
      DigitsOfDecimal(n / 10);
    }
  }

  /** Formatting an integer in decimal and parsing it back gives the integer. */
  lemma ParseIntOfDecimal(n: int)
    ensures ParseInt(IntToDecimal(n)) == Some(n)
  {
    var s := IntToDecimal(n);
    StripUnchanged(s);
    if n < 0 {
      assert s[1..] == NatToDecimal(-n);
      DigitsOfDecimal(-n);
    } else {
      DigitsOfDecimal(n);
    }
  }

  /** The decimal forms of 100 and 60. */
  lemma DecimalExamples()
    ensures IntToDecimal(100) == "100" && IntToDecimal(60) == "60"
  {
    assert DigitChar(0) == '0' && DigitChar(1) == '1' && DigitChar(6) == '6';
    assert NatToDecimal(100) == ['1'] + ['0'] + ['0'];
    assert NatToDecimal(60) == ['6'] + ['0'];
  }

  /** The decimal forms of 120 and 160. */
  lemma DecimalExamplesMore()
    ensures IntToDecimal(120) == "120" && IntToDecimal(160) == "160"
  {
    assert DigitChar(0) == '0' && DigitChar(1) == '1' && DigitChar(2) == '2' && DigitChar(6) == '6';
    assert NatToDecimal(120) == ['1'] + ['2'] + ['0'];
    assert NatToDecimal(160) == ['1'] + ['6'] + ['0'];
  }

  /** `int()` on the decimal texts of 0 and 100. */
  lemma ParseIntExamples()
    ensures ParseInt("0") == Some(0) && ParseInt("100") == Some(100)
  {
    assert IntToDecimal(0) == "0";
    ParseIntOfDecimal(0);
    DecimalExamples();
    ParseIntOfDecimal(100);
  }

  /** `int()` on the decimal texts of 60, 120 and 160. */
  lemma ParseIntExamplesMore()
    ensures ParseInt("60") == Some(60) && ParseInt("120") == Some(120) && ParseInt("160") == Some(160)
  {
    DecimalExamples();
    DecimalExamplesMore();
    ParseIntOfDecimal(60);
    ParseIntOfDecimal(120);
    ParseIntOfDecimal(160);
  }

  /** `int()` refuses a text that is not a number. */
  lemma ParseIntRejects()
    ensures ParseInt("abc") == None
  {
    StripUnchanged("abc");
    assert !IsDigit("abc"[0]);
  }
}
