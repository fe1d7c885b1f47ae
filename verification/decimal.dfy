/** Decimal text of integers as JavaScript produces and reads it:
    template-literal formatting `${n}`, `parseInt(s, 10)` and `Number(s)`. */
module Decimal {
  import opened Common

  predicate IsDigit(c: char)
  {
    '0' <= c <= '9'
  }

  predicate AllDigits(s: string)
  {
    forall i :: 0 <= i < |s| ==> IsDigit(s[i])
  }

  function DigitChar(d: nat): (c: char)
    requires d < 10
    ensures IsDigit(c)
  {
    (('0' as int) + d) as char
  }

  function DigitValue(c: char): nat
    requires IsDigit(c)
  {
    (c as int) - ('0' as int)
  }

  /** `${n}` for a natural number: its decimal digits without leading zeros. */
  function NatToString(n: nat): (s: string)
    ensures 0 < |s| && AllDigits(s)
  {
    if n < 10 then [DigitChar(n)] else NatToString(n / 10) + [DigitChar(n % 10)]
  }

  /** `${n}` for an integer: a minus sign before the digits of a negative value. */
  function IntToString(n: int): (s: string)
    ensures 0 < |s|
    ensures n >= 0 ==> AllDigits(s)
    ensures n < 0 ==> s[0] == '-' && AllDigits(s[1..])
  {
    if n < 0 then "-" + NatToString(-n) else NatToString(n)
  }

  /** The value of a string of decimal digits, most significant first. */
  function DigitsValue(s: string): nat
    requires AllDigits(s)
  {
    if |s| == 0 then 0 else DigitsValue(s[..|s| - 1]) * 10 + DigitValue(s[|s| - 1])
  }

  /** Reading back the digits of `n` gives `n`. */
  lemma {:induction false} NatToStringRoundTrip(n: nat)
    ensures DigitsValue(NatToString(n)) == n
  {
    if n >= 10 {
      NatToStringRoundTrip(n / 10);
      var s := NatToString(n);
      assert s[..|s| - 1] == NatToString(n / 10);
    }
  }

  /** Distinct natural numbers have distinct digit strings. */
  lemma NatToStringInjective(a: nat, b: nat)
    ensures NatToString(a) == NatToString(b) ==> a == b
  {
    NatToStringRoundTrip(a);
    NatToStringRoundTrip(b);
  }

  /** Distinct integers have distinct decimal texts. */
  lemma IntToStringInjective(a: int, b: int)
    ensures IntToString(a) == IntToString(b) ==> a == b
  {
    var sa, sb := IntToString(a), IntToString(b);
    if sa == sb {
      assert (a < 0) == (sa[0] == '-') && (b < 0) == (sb[0] == '-');
      if a < 0 {
        assert NatToString(-a) == sa[1..];
        assert NatToString(-b) == sb[1..];
        NatToStringInjective(-a, -b);
      } else {
        NatToStringInjective(a, b);
      }
    }
  }

  /** The white-space characters JavaScript strips before reading a number:
      tab, vertical tab, form feed, the byte-order mark, the line terminators
      and every space separator of Unicode category Zs. */
  predicate IsJsWhitespace(c: char)
  {
    c == ' ' || c == '\t' || c == '\n' || c == '\r' || c == '\U{000B}' || c == '\U{000C}'
    || c == '\U{00A0}' || c == '\U{FEFF}' || c == '\U{2028}' || c == '\U{2029}'
    || c == '\U{1680}' || ('\U{2000}' <= c <= '\U{200A}') || c == '\U{202F}' || c == '\U{205F}'
    || c == '\U{3000}'
  }

  function TrimStart(s: string): (t: string)
    ensures |t| <= |s| && t == s[|s| - |t|..]
    ensures |t| > 0 ==> !IsJsWhitespace(t[0])
  {
    if |s| > 0 && IsJsWhitespace(s[0]) then TrimStart(s[1..]) else s
  }

  function TrimEnd(s: string): (t: string)
    ensures |t| <= |s| && t == s[..|t|]
    ensures |t| > 0 ==> !IsJsWhitespace(t[|t| - 1])
  {
    if |s| > 0 && IsJsWhitespace(s[|s| - 1]) then TrimEnd(s[..|s| - 1]) else s
  }

  /** The length of the longest all-digit prefix of `s`. */
  function LeadingDigits(s: string): (n: nat)
    ensures n <= |s| && AllDigits(s[..n])
    ensures n < |s| ==> !IsDigit(s[n])
  {
    if |s| == 0 || !IsDigit(s[0]) then 0
    else
      var k := LeadingDigits(s[1..]);
      assert s[..k + 1] == [s[0]] + s[1..][..k];
      k + 1
  }

  /** Whether a minus sign leads (a plus sign is dropped as well), and the
      text after the sign. */
  function SplitSign(t: string): (bool, string)
  {
    if |t| > 0 && t[0] == '-' then (true, t[1..])
    else if |t| > 0 && t[0] == '+' then (false, t[1..])
    else (false, t)
  }

  function Signed(neg: bool, v: int): int
  {
    if neg then -v else v
  }

  /** `parseInt(s, 10)`: skip leading white space, read an optional sign and
      the longest run of digits after it; `None` stands for `NaN` (no digit). */
  function ParseIntJs(s: string): (r: Option<int>)
  {
    var (neg, rest) := SplitSign(TrimStart(s));
    var n := LeadingDigits(rest);
    if n == 0 then None else Some(Signed(neg, DigitsValue(rest[..n])))
  }

  /** `Number(s)` for strings that are empty, blank or an optionally signed
      run of decimal digits; any other string is `NaN` (`None`). */
  function NumberOf(s: string): (r: Option<int>)
  {
    var t := TrimEnd(TrimStart(s));
    if |t| == 0 then Some(0)
    else
      var (neg, body) := SplitSign(t);
      if 0 < |body| && AllDigits(body) then Some(Signed(neg, DigitsValue(body))) else None
  }

  lemma {:induction false} LeadingDigitsOfDigitsThen(d: string, rest: string)
    requires AllDigits(d)
    requires |rest| == 0 || !IsDigit(rest[0])
    ensures LeadingDigits(d + rest) == |d|
  {
    if |d| > 0 {
      LeadingDigitsOfDigitsThen(d[1..], rest);
      assert (d + rest)[1..] == d[1..] + rest;
    }
  }

  /** The text `${n}` is built from: an optional minus sign, then digits. */
  function SignText(neg: bool): string
  {
    if neg then "-" else ""
  }

  lemma IntToStringParts(n: int)
    ensures IntToString(n) == SignText(n < 0) + NatToString(if n < 0 then -n else n)
  {
  }

  /** `${n}` holds nothing but digits and a minus sign. */
  lemma IntToStringAlphabet(n: int, c: char)
    requires !IsDigit(c) && c != '-'
    ensures c !in IntToString(n)
  {
    IntToStringParts(n);
    var d := NatToString(if n < 0 then -n else n);
    assert forall i :: 0 <= i < |d| ==> d[i] != c;
  }

  lemma TrimStartKeeps(s: string)
    requires 0 < |s| && !IsJsWhitespace(s[0])
    ensures TrimStart(s) == s
  {
  }

  /** `parseInt` of a text whose sign has been split off as a digit run
      followed by a non-digit. */
  lemma ParseIntOfDigitsThen(neg: bool, t: string, d: string, rest: string)
    requires AllDigits(d) && 0 < |d|
    requires |rest| == 0 || !IsDigit(rest[0])
    requires TrimStart(t) == t && SplitSign(t) == (neg, d + rest)
    ensures ParseIntJs(t) == Some(Signed(neg, DigitsValue(d)))
  {
    LeadingDigitsOfDigitsThen(d, rest);
    assert (d + rest)[..|d|] == d;
  }

  lemma ParseIntOfUnsignedDigits(d: string, rest: string)
    requires AllDigits(d) && 0 < |d|
    requires |rest| == 0 || !IsDigit(rest[0])
    ensures ParseIntJs(d + rest) == Some(DigitsValue(d))
  {
    var s := d + rest;
    assert TrimStart(s) == s && SplitSign(s) == (false, d + rest) by {
      assert s[0] == d[0] && IsDigit(d[0]);
      TrimStartKeeps(s);
    }
    ParseIntOfDigitsThen(false, s, d, rest);
  }

  lemma NegativeTextSplits(tail: string)
    ensures TrimStart("-" + tail) == "-" + tail && SplitSign("-" + tail) == (true, tail)
  {
    var s := "-" + tail;
    TrimStartKeeps(s);
    assert s[1..] == tail;
  }

  lemma ParseIntOfNegativeDigits(d: string, rest: string)
    requires AllDigits(d) && 0 < |d|
    requires |rest| == 0 || !IsDigit(rest[0])
    ensures ParseIntJs("-" + d + rest) == Some(Signed(true, DigitsValue(d)))
  {
    NegativeTextSplits(d + rest);
    assert "-" + d + rest == "-" + (d + rest);
    ParseIntOfDigitsThen(true, "-" + (d + rest), d, rest);
  }

  /** `parseInt` of an optional minus sign, a digit run and a text that
      does not start with a digit reads the signed value of the digits. */
  lemma ParseIntOfSignedDigits(neg: bool, d: string, rest: string)
    requires AllDigits(d) && 0 < |d|
    requires |rest| == 0 || !IsDigit(rest[0])
    ensures ParseIntJs(SignText(neg) + d + rest) == Some(Signed(neg, DigitsValue(d)))
  {
    if neg {
      ParseIntOfNegativeDigits(d, rest);
    } else {
      assert SignText(neg) + d + rest == d + rest;
      ParseIntOfUnsignedDigits(d, rest);
    }
  }

  /** `parseInt` reads back `${n}` when the next character is not a digit. */
  lemma ParseIntOfIntToString(n: int, rest: string)
    requires |rest| == 0 || !IsDigit(rest[0])
    ensures ParseIntJs(IntToString(n) + rest) == Some(n)
  {
    var m: nat := if n < 0 then -n else n;
    var d := NatToString(m);
    IntToStringParts(n);
    NatToStringRoundTrip(m);
    ParseIntOfSignedDigits(n < 0, d, rest);
  }

  lemma TrimEndKeeps(s: string)
    requires 0 < |s| && IsDigit(s[|s| - 1])
    ensures TrimEnd(s) == s
  {
  }

  /** A digit run is its own trimmed text. */
  lemma TrimDigits(s: string)
    requires 0 < |s| && !IsJsWhitespace(s[0]) && IsDigit(s[|s| - 1])
    ensures TrimEnd(TrimStart(s)) == s
  {
    TrimStartKeeps(s);
  }

  /** `Number` of a trimmed text that is an optional sign and digits. */
  lemma NumberOfTrimmed(s: string, neg: bool, body: string)
    requires 0 < |s| && TrimEnd(TrimStart(s)) == s
    requires SplitSign(s) == (neg, body) && 0 < |body| && AllDigits(body)
    ensures NumberOf(s) == Some(Signed(neg, DigitsValue(body)))
  {
  }

  lemma DigitsTrimmed(d: string)
    requires AllDigits(d) && 0 < |d|
    ensures TrimEnd(TrimStart(d)) == d && SplitSign(d) == (false, d)
  {
    assert IsDigit(d[0]) && IsDigit(d[|d| - 1]);
    TrimDigits(d);
  }

  lemma NegativeDigitsTrimmed(d: string)
    requires AllDigits(d) && 0 < |d|
    ensures TrimEnd(TrimStart("-" + d)) == "-" + d && SplitSign("-" + d) == (true, d)
  {
    NegativeTextSplits(d);
    var s := "-" + d;
    assert s[|s| - 1] == d[|d| - 1];
    TrimEndKeeps(s);
  }

  lemma NumberOfUnsignedDigits(d: string)
    requires AllDigits(d) && 0 < |d|
    ensures NumberOf(d) == Some(DigitsValue(d))
  {
    DigitsTrimmed(d);
    NumberOfTrimmed(d, false, d);
  }

  lemma NumberOfNegativeDigits(d: string)
    requires AllDigits(d) && 0 < |d|
    ensures NumberOf("-" + d) == Some(Signed(true, DigitsValue(d)))
  {
    NegativeDigitsTrimmed(d);
    NumberOfTrimmed("-" + d, true, d);
  }

  /** `Number` of an optional minus sign and a digit run reads its signed value. */
  lemma NumberOfSignedDigits(neg: bool, d: string)
    requires AllDigits(d) && 0 < |d|
    ensures NumberOf(SignText(neg) + d) == Some(Signed(neg, DigitsValue(d)))
  {
    if neg {
      NumberOfNegativeDigits(d);
    } else {
      assert SignText(neg) + d == d;
      NumberOfUnsignedDigits(d);
    }
  }

  /** `Number` reads back `${n}`. */
  lemma NumberOfIntToString(n: int)
    ensures NumberOf(IntToString(n)) == Some(n)
  {
    var m: nat := if n < 0 then -n else n;
    IntToStringParts(n);
    NatToStringRoundTrip(m);
    NumberOfSignedDigits(n < 0, NatToString(m));
  }
}
