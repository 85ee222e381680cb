/** ASCII text helpers that stand in for the Python string operations the pipeline uses:
    `str.upper`, `str.strip`, `str(int)`, `int(str)` and slicing from the end. */
module Strings {

  /** Python's `str.isspace` restricted to ASCII: tab, line feed, vertical tab, form feed,
      carriage return, the four information separators and the space. */
  predicate IsSpace(c: char) {
    (9 <= c as int <= 13) || (28 <= c as int <= 32)
  }

  predicate IsDigit(c: char) {
    '0' <= c <= '9'
  }

  predicate IsLower(c: char) {
    'a' <= c <= 'z'
  }

  function UpperChar(c: char): (u: char)
    ensures !IsLower(u)
    ensures !IsLower(c) ==> u == c
  {
    if IsLower(c) then (c as int - 32) as char else c
  }

  /** A string with no lower-case ASCII letter. */
  predicate IsUpper(s: string) {
    forall i :: 0 <= i < |s| ==> !IsLower(s[i])
  }

  /** ASCII `str.upper()`. */
  function Upper(s: string): (r: string)
    ensures |r| == |s| && IsUpper(r)
    ensures forall i :: 0 <= i < |s| && !IsLower(s[i]) ==> r[i] == s[i]
  {
    seq(|s|, i requires 0 <= i < |s| => UpperChar(s[i]))
  }

  lemma UpperOfUpper(s: string)
    requires IsUpper(s)
    ensures Upper(s) == s
  {
  }

  function TrimStart(s: string): (r: string)
    ensures |r| <= |s| && r == s[|s| - |r|..]
    ensures |r| > 0 ==> !IsSpace(r[0])
  {
    if |s| > 0 && IsSpace(s[0]) then TrimStart(s[1..]) else s
  }

  function TrimEnd(s: string): (r: string)
    ensures |r| <= |s| && r == s[..|r|]
    ensures |r| > 0 ==> !IsSpace(r[|r| - 1])
  {
    if |s| > 0 && IsSpace(s[|s| - 1]) then TrimEnd(s[..|s| - 1]) else s
  }

  /** `str.strip()`: drops leading and trailing whitespace. */
  function Strip(s: string): (r: string)
    ensures |r| <= |s|
    ensures |r| > 0 ==> !IsSpace(r[0]) && !IsSpace(r[|r| - 1])
  {
    TrimEnd(TrimStart(s))
  }

  /** `s[-2:]`: the last two characters, or the whole string when it is shorter. */
  function LastTwo(s: string): (r: string)
    ensures |r| == if |s| < 2 then |s| else 2
  {
    if |s| < 2 then s else s[|s| - 2..]
  }

  function DigitChar(d: nat): (c: char)
    requires d < 10
    ensures IsDigit(c)
  {
    ('0' as int + d) as char
  }

  function DigitValue(c: char): (d: nat)
    requires IsDigit(c)
    ensures d < 10 && DigitChar(d) == c
  {
    c as int - '0' as int
  }

  /** Decimal text of a natural number, most significant digit first, no leading zeros. */
  function NatText(n: nat): (r: string)
    ensures |r| >= 1
    ensures forall i :: 0 <= i < |r| ==> IsDigit(r[i])
  {
    if n < 10 then [DigitChar(n)] else NatText(n / 10) + [DigitChar(n % 10)]
  }

  /** Python's `str(n)` for an integer. */
  function IntText(n: int): (r: string)
    ensures |r| >= 1
  {
    if n < 0 then "-" + NatText(-n) else NatText(n)
  }

  /** The value of a non-empty run of decimal digits. */
  function DigitsValue(ds: string): nat
    requires forall i :: 0 <= i < |ds| ==> IsDigit(ds[i])
  {
    if |ds| == 0 then 0 else 10 * DigitsValue(ds[..|ds| - 1]) + DigitValue(ds[|ds| - 1])
  }

  predicate AllDigits(ds: string) {
    |ds| > 0 && forall i :: 0 <= i < |ds| ==> IsDigit(ds[i])
  }

  /** Python's `int(s)` on text: surrounding whitespace, an optional sign and one or more
      ASCII digits; anything else is the `ValueError` case, here `None`. */
  function ParseInt(s: string): (r: Option<int>)
  {
    ParseSigned(Strip(s))
  }

  /** `int` on text without surrounding whitespace. */
  function ParseSigned(t: string): (r: Option<int>)
  {
    if |t| > 0 && (t[0] == '-' || t[0] == '+') then
      var ds := t[1..];
      if AllDigits(ds) then Some(if t[0] == '-' then -(DigitsValue(ds) as int) else DigitsValue(ds) as int) else None
    else if AllDigits(t) then Some(DigitsValue(t) as int)
    else None
  }

  datatype Option<+T> = None | Some(value: T)

  lemma {:induction false} DigitsOfNatText(n: nat)
    ensures DigitsValue(NatText(n)) == n
  {
    if n >= 10 {
      var s := NatText(n);
      assert s[..|s| - 1] == NatText(n / 10);
      DigitsOfNatText(n / 10);
    }
  }

  lemma StripOfNoSpaceEnds(s: string)
    requires |s| > 0 && !IsSpace(s[0]) && !IsSpace(s[|s| - 1])
    ensures Strip(s) == s
  {
  }

  /** Reading back the text of an integer yields the integer: `int(str(n)) == n`. */
  lemma ParseIntText(n: int)
    ensures ParseInt(IntText(n)) == Some(n)
  {
    var s := IntText(n);
    StripOfNoSpaceEnds(s);
    if n < 0 {
      SignedNegativeText(-n);
    } else {
      SignedNatText(n);
    }
  }

  /** Text that starts with neither a sign nor a digit is not an integer. */
  lemma SignedNonDigit(t: string)
    requires |t| > 0 && t[0] != '-' && t[0] != '+' && !IsDigit(t[0])
    ensures ParseSigned(t).None?
  {
    assert !AllDigits(t);
  }

  lemma SignedNatText(n: nat)
    ensures ParseSigned(NatText(n)) == Some(n)
  {
    var s := NatText(n);
    assert IsDigit(s[0]);
    assert AllDigits(s);
    DigitsOfNatText(n);
  }

  lemma SignedNegativeText(n: nat)
    requires n > 0
    ensures ParseSigned("-" + NatText(n)) == Some(-(n as int))
  {
    var s := "-" + NatText(n);
    assert s[0] == '-' && s[1..] == NatText(n);
    assert AllDigits(s[1..]);
    DigitsOfNatText(n);
  }

  /** The last two characters of the text of a number with at least two digits are its
      tens and units digits. */
  lemma {:induction false} LastTwoOfNatText(n: nat)
    requires n >= 10
    ensures LastTwo(NatText(n)) == [DigitChar((n / 10) % 10), DigitChar(n % 10)]
  {
    var s := NatText(n);
    assert s == NatText(n / 10) + [DigitChar(n % 10)];
    var p := NatText(n / 10);
    assert p[|p| - 1] == DigitChar((n / 10) % 10) by {
      if n / 10 >= 10 {
        assert p == NatText(n / 10 / 10) + [DigitChar((n / 10) % 10)];
      }
    }
  }

  /** The text of a four-digit number, digit by digit. */
  lemma NatTextFourDigits(n: nat)
    requires 1000 <= n <= 9999
    ensures NatText(n) == [DigitChar(n / 1000), DigitChar((n / 100) % 10), DigitChar((n / 10) % 10), DigitChar(n % 10)]
  {
    assert NatText(n / 1000) == [DigitChar(n / 1000)];
    assert NatText(n / 100) == NatText(n / 1000) + [DigitChar((n / 100) % 10)];
    assert NatText(n / 10) == NatText(n / 100) + [DigitChar((n / 10) % 10)];
  }
}
