/** Base-10 text of integers, as strconv writes and reads it. */
module Decimal {
  import opened Basics

  predicate IsDigit(c: char) {
    '0' <= c <= '9'
  }

  predicate AllDigits(s: string) {
    forall i :: 0 <= i < |s| ==> IsDigit(s[i])
  }

  function Digit(d: nat): (c: char)
    requires d < 10
    ensures IsDigit(c) && DigitValue(c) == d
  {
    (('0' as int) + d) as char
  }

  function DigitValue(c: char): (d: nat)
    requires IsDigit(c)
    ensures d < 10
  {
    (c as int) - ('0' as int)
  }

  /** The shortest base-10 form. */
  function Format(n: nat): (s: string)
    ensures AllDigits(s) && s != []
  {
    if n < 10 then [Digit(n)] else Format(n / 10) + [Digit(n % 10)]
  }

  /** The number a string of digits stands for. */
  function Value(s: string): nat
    requires AllDigits(s)
  {
    if s == [] then 0 else Value(s[..|s| - 1]) * 10 + DigitValue(s[|s| - 1])
  }

  /** Only digits, at least one, and no more than the limit. */
  function ParseUint(s: string, limit: nat): Option<nat> {
    if s != [] && AllDigits(s) && Value(s) <= limit then Some(Value(s)) else None
  }

  lemma {:induction false} ValueOfFormat(n: nat)
    ensures Value(Format(n)) == n
  {
    if n >= 10 {
      ValueOfFormat(n / 10);
      var s := Format(n);
      assert s[..|s| - 1] == Format(n / 10) && s[|s| - 1] == Digit(n % 10);
    }
  }

  lemma FormatInjective(m: nat, n: nat)
    requires Format(m) == Format(n)
    ensures m == n
  {
    ValueOfFormat(m);
    ValueOfFormat(n);
  }

  /** Signed form. */
  function FormatInt(i: int): string {
    if i < 0 then "-" + Format(-i) else Format(i)
  }

  /** An optional sign, then digits. Unbounded: the width of the integer is not part of the model. */
  function ParseInt(s: string): Option<int> {
    if s == [] then None
    else if s[0] == '-' || s[0] == '+' then
      if |s| > 1 && AllDigits(s[1..]) then Some((if s[0] == '-' then -1 else 1) * Value(s[1..])) else None
    else if AllDigits(s) then Some(Value(s))
    else None
  }

  lemma ParseOfFormatInt(i: int)
    ensures ParseInt(FormatInt(i)) == Some(i)
    ensures FormatInt(i) != [] && forall k :: 0 <= k < |FormatInt(i)| ==> IsDigit(FormatInt(i)[k]) || FormatInt(i)[k] == '-'
  {
    if i < 0 {
      ValueOfFormat(-i);
      assert FormatInt(i)[1..] == Format(-i);
    } else {
      ValueOfFormat(i);
      assert IsDigit(Format(i)[0]);
    }
  }
}
