/**
 * Decimal text of integers: the `atoi` of the numeric package and Go's
 * strconv.Atoi (an optional sign followed by one or more ASCII digits),
 * strconv.FormatInt in base 10, and strings.IndexByte. Out-of-range
 * errors of the 64-bit parsers are not modelled: integers are unbounded.
 */
module Decimal {
  import opened Wrappers

  /** strings.IndexByte: the index of the first `c` in `s`, or -1. */
  function IndexByte(s: string, c: char): (i: int)
    ensures -1 <= i < |s|
    ensures i == -1 <==> c !in s
    ensures i >= 0 ==> s[i] == c && c !in s[..i]
  {
    if |s| == 0 then -1
    else if s[0] == c then 0
    else
      var j := IndexByte(s[1..], c);
      assert s[1..][..if j < 0 then 0 else j] == s[1..1 + if j < 0 then 0 else j];
      if j < 0 then -1 else j + 1
  }

  predicate IsDigit(c: char)
  {
    '0' <= c <= '9'
  }

  predicate AllDigits(s: string)
  {
    forall i :: 0 <= i < |s| ==> IsDigit(s[i])
  }

  function DigitValue(c: char): (d: nat)
    requires IsDigit(c)
    ensures d < 10
  {
    c as int - '0' as int
  }

  function DigitChar(d: nat): (c: char)
    requires d < 10
    ensures IsDigit(c) && DigitValue(c) == d
  {
    ('0' as int + d) as char
  }

  /** The value of a run of decimal digits, most significant first. */
  function DigitsValue(s: string): nat
    requires AllDigits(s)
  {
    if |s| == 0 then 0 else 10 * DigitsValue(s[..|s| - 1]) + DigitValue(s[|s| - 1])
  }

  /** Shortest decimal digits of `n`. */
  function FormatNat(n: nat): (s: string)
    ensures |s| > 0 && AllDigits(s)
  {
    if n < 10 then [DigitChar(n)] else FormatNat(n / 10) + [DigitChar(n % 10)]
  }

  /** strconv.FormatInt(n, 10). */
  function FormatInt(n: int): (s: string)
    ensures |s| > 0 && '/' !in s
    ensures n < 0 <==> s[0] == '-'
  {
    var s := if n < 0 then "-" + FormatNat(-n) else FormatNat(n);
    assert IsDigit(s[|s| - 1]);
    s
  }

  /** One or more digits and nothing else. */
  function Unsigned(s: string): (r: Option<nat>)
    ensures r.Some? <==> |s| > 0 && AllDigits(s)
    ensures r.Some? ==> r.value == DigitsValue(s)
  {
    if |s| > 0 && AllDigits(s) then Some(DigitsValue(s)) else None
  }

  /** Signed decimal parsing: an optional '+' or '-' then one or more digits. */
  function Atoi(s: string): (r: Option<int>)
    ensures r.Some? <==> (|s| > 0 && AllDigits(s)) || (|s| > 1 && (s[0] == '-' || s[0] == '+') && AllDigits(s[1..]))
    ensures r.Some? && |s| > 0 && s[0] == '-' ==> r.value <= 0
    ensures r.Some? && |s| > 0 && s[0] != '-' ==> r.value >= 0
    ensures r.Some? ==> (r.value ==
      if s[0] == '-' then -(DigitsValue(s[1..]) as int) else if s[0] == '+' then DigitsValue(s[1..]) as int else DigitsValue(s) as int)
  {
    if |s| > 0 && (s[0] == '-' || s[0] == '+') then
      match Unsigned(s[1..])
      case None => None
      case Some(v) => Some(if s[0] == '-' then -(v as int) else v as int)
    else
      match Unsigned(s)
      case None => None
      case Some(v) => Some(v)
  }

  lemma {:induction false} DigitsValueOfFormatNat(n: nat)
    ensures DigitsValue(FormatNat(n)) == n
  {
    if n >= 10 {
      DigitsValueOfFormatNat(n / 10);
      var s := FormatNat(n);
      assert s[..|s| - 1] == FormatNat(n / 10);
    }
  }

  lemma UnsignedOfFormatNat(n: nat)
    ensures Unsigned(FormatNat(n)) == Some(n)
  {
    DigitsValueOfFormatNat(n);
  }

  /** Formatting then parsing gives the integer back. */
  lemma AtoiOfFormatInt(n: int)
    ensures Atoi(FormatInt(n)) == Some(n)
  {
    if n < 0 {
      var f := FormatNat(-n);
      UnsignedOfFormatNat(-n);
      var s := "-" + f;
      assert s[1..] == f;
      assert FormatInt(n) == s;
    } else {
      var f := FormatNat(n);
      UnsignedOfFormatNat(n);
      assert IsDigit(f[0]);
      assert FormatInt(n) == f;
    }
  }
}
