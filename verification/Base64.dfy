/** Base64 without padding, section 4 of RFC 4648, as Go's encoding/base64 reads and writes it. */
module Base64 {
  import opened Basics

  predicate Bytes(s: seq<nat>) {
    forall i :: 0 <= i < |s| ==> s[i] < 256
  }

  function Char(d: nat): (c: char)
    requires d < 64
    ensures InAlphabet(c)
  {
    if d < 26 then (('A' as int) + d) as char
    else if d < 52 then (('a' as int) + d - 26) as char
    else if d < 62 then (('0' as int) + d - 52) as char
    else if d == 62 then '+' else '/'
  }

  predicate InAlphabet(c: char) {
    'A' <= c <= 'Z' || 'a' <= c <= 'z' || '0' <= c <= '9' || c == '+' || c == '/'
  }

  function Digit(c: char): (d: nat)
    requires InAlphabet(c)
    ensures d < 64
  {
    if 'A' <= c <= 'Z' then (c as int) - ('A' as int)
    else if 'a' <= c <= 'z' then (c as int) - ('a' as int) + 26
    else if '0' <= c <= '9' then (c as int) - ('0' as int) + 52
    else if c == '+' then 62 else 63
  }

  lemma DigitOfChar(d: nat)
    requires d < 64
    ensures Digit(Char(d)) == d
  {}

  const UPPER := "ABCDEFGHIJKLMNOPQRSTUVWXYZ"
  const LOWER := "abcdefghijklmnopqrstuvwxyz"
  const DECIMAL := "0123456789"

  /** Table 1 of RFC 4648. */
  const ALPHABET := UPPER + LOWER + DECIMAL + "+/"

  lemma UpperAt(d: nat)
    requires d < 26
    ensures UPPER[d] == (('A' as int) + d) as char
  {
    assert d == 0 || d == 1 || d == 2 || d == 3 || d == 4 || d == 5 || d == 6 || d == 7 || d == 8 || d == 9
        || d == 10 || d == 11 || d == 12 || d == 13 || d == 14 || d == 15 || d == 16 || d == 17 || d == 18 || d == 19
        || d == 20 || d == 21 || d == 22 || d == 23 || d == 24 || d == 25;
  }

  lemma LowerAt(d: nat)
    requires d < 26
    ensures LOWER[d] == (('a' as int) + d) as char
  {
    assert d == 0 || d == 1 || d == 2 || d == 3 || d == 4 || d == 5 || d == 6 || d == 7 || d == 8 || d == 9
        || d == 10 || d == 11 || d == 12 || d == 13 || d == 14 || d == 15 || d == 16 || d == 17 || d == 18 || d == 19
        || d == 20 || d == 21 || d == 22 || d == 23 || d == 24 || d == 25;
  }

  lemma DecimalAt(d: nat)
    requires d < 10
    ensures DECIMAL[d] == (('0' as int) + d) as char
  {
    assert d == 0 || d == 1 || d == 2 || d == 3 || d == 4 || d == 5 || d == 6 || d == 7 || d == 8 || d == 9;
  }

  lemma CharIsAlphabet(d: nat)
    requires d < 64
    ensures |ALPHABET| == 64 && Char(d) == ALPHABET[d]
  {
    assert |UPPER| == 26 && |LOWER| == 26 && |DECIMAL| == 10;
    if d < 26 {
      UpperAt(d);
    } else if d < 52 {
      LowerAt(d - 26);
    } else if d < 62 {
      DecimalAt(d - 52);
    } else {
      assert d == 62 || d == 63;
    }
  }

  /** Each group of three bytes is four digits of the same number; a last one or two bytes are filled up with zero bits. */
  lemma GroupBits(s: seq<nat>)
    requires Bytes(s)
    ensures |s| == 1 ==> var d := Sextets(s); |d| == 2 && d[0] * 64 + d[1] == s[0] * 16
    ensures |s| == 2 ==> var d := Sextets(s); |d| == 3 && (d[0] * 64 + d[1]) * 64 + d[2] == (s[0] * 256 + s[1]) * 4
    ensures |s| >= 3 ==> var d := Sextets(s);
      |d| >= 4 && ((d[0] * 64 + d[1]) * 64 + d[2]) * 64 + d[3] == (s[0] * 256 + s[1]) * 256 + s[2] && d[4..] == Sextets(s[3..])
  {}

  /** The six-bit digits of the bytes; a last group of one or two bytes has two or three. */
  function Sextets(s: seq<nat>): (ds: seq<nat>)
    requires Bytes(s)
    ensures Digits(ds) && |ds| % 4 != 1
  {
    if |s| == 0 then []
    else if |s| == 1 then [s[0] / 4, s[0] % 4 * 16]
    else if |s| == 2 then [s[0] / 4, s[0] % 4 * 16 + s[1] / 16, s[1] % 16 * 4]
    else [s[0] / 4, s[0] % 4 * 16 + s[1] / 16, s[1] % 16 * 4 + s[2] / 64, s[2] % 64] + Sextets(s[3..])
  }

  predicate Digits(ds: seq<nat>) {
    forall i :: 0 <= i < |ds| ==> ds[i] < 64
  }

  function Encode(s: seq<nat>): (t: string)
    requires Bytes(s)
    ensures forall i :: 0 <= i < |t| ==> InAlphabet(t[i])
  {
    var ds := Sextets(s);
    seq(|ds|, i requires 0 <= i < |ds| => Char(ds[i]))
  }

  /** The bytes of the digits; bits left over are ignored. */
  function Octets(ds: seq<nat>): seq<nat>
    requires |ds| % 4 != 1
  {
    if |ds| == 0 then []
    else if |ds| == 2 then [ds[0] * 4 + ds[1] / 16]
    else if |ds| == 3 then [ds[0] * 4 + ds[1] / 16, ds[1] % 16 * 16 + ds[2] / 4]
    else [ds[0] * 4 + ds[1] / 16, ds[1] % 16 * 16 + ds[2] / 4, ds[2] % 4 * 64 + ds[3]] + Octets(ds[4..])
  }

  /** Line ends are ignored. */
  function WithoutLineEnds(t: string): string {
    if t == [] then []
    else if t[0] == '\r' || t[0] == '\n' then WithoutLineEnds(t[1..])
    else [t[0]] + WithoutLineEnds(t[1..])
  }

  /** None for a character outside the alphabet or a single character left over. */
  function Decode(text: string): Option<seq<nat>> {
    var t := WithoutLineEnds(text);
    if |t| % 4 == 1 || exists i :: 0 <= i < |t| && !InAlphabet(t[i]) then None
    else Some(Octets(seq(|t|, i requires 0 <= i < |t| => Digit(t[i]))))
  }

  lemma {:induction false} NoLineEnds(t: string)
    requires forall i :: 0 <= i < |t| ==> InAlphabet(t[i])
    ensures WithoutLineEnds(t) == t
  {
    if t != [] {
      NoLineEnds(t[1..]);
    }
  }

  /** Six-bit digits put together again, whatever the lower bits of the third digit. */
  lemma Regrouped(b0: nat, b1: nat, low: nat)
    requires b0 < 256 && b1 < 256 && low < 4
    ensures b0 / 4 * 4 + (b0 % 4 * 16 + b1 / 16) / 16 == b0
    ensures (b0 % 4 * 16 + b1 / 16) % 16 * 16 + (b1 % 16 * 4 + low) / 4 == b1
    ensures (b1 % 16 * 4 + low) % 4 == low
  {
    assert (b0 % 4 * 16 + b1 / 16) / 16 == b0 % 4 && (b0 % 4 * 16 + b1 / 16) % 16 == b1 / 16;
  }

  lemma OctetsOfGroup(ds: seq<nat>, s: seq<nat>)
    requires |ds| % 4 != 1 && |ds| >= 4 && |s| >= 3 && Octets(ds[4..]) == s[3..]
    requires ds[0] * 4 + ds[1] / 16 == s[0] && ds[1] % 16 * 16 + ds[2] / 4 == s[1] && ds[2] % 4 * 64 + ds[3] == s[2]
    ensures Octets(ds) == s
  {
    assert s == [s[0], s[1], s[2]] + s[3..];
  }

  lemma OctetsOfTwo(ds: seq<nat>, s: seq<nat>)
    requires |ds| == 3 && |s| == 2 && ds[0] * 4 + ds[1] / 16 == s[0] && ds[1] % 16 * 16 + ds[2] / 4 == s[1]
    ensures Octets(ds) == s
  {}

  lemma OctetsOfOne(ds: seq<nat>, s: seq<nat>)
    requires |ds| == 2 && |s| == 1 && ds[0] * 4 + ds[1] / 16 == s[0]
    ensures Octets(ds) == s
  {}

  lemma {:induction false} OctetsOfSextets(s: seq<nat>)
    requires Bytes(s)
    ensures Octets(Sextets(s)) == s
  {
    var ds := Sextets(s);
    if |s| == 1 {
      Regrouped(s[0], 0, 0);
      OctetsOfOne(ds, s);
    } else if |s| == 2 {
      Regrouped(s[0], s[1], 0);
      OctetsOfTwo(ds, s);
    } else if |s| >= 3 {
      Regrouped(s[0], s[1], s[2] / 64);
      OctetsOfSextets(s[3..]);
      assert ds[4..] == Sextets(s[3..]);
      OctetsOfGroup(ds, s);
    }
  }

  lemma DecodeOfEncode(s: seq<nat>)
    requires Bytes(s)
    ensures Decode(Encode(s)) == Some(s)
  {
    var ds, t := Sextets(s), Encode(s);
    NoLineEnds(t);
    forall i | 0 <= i < |ds|
      ensures Digit(t[i]) == ds[i]
    {
      DigitOfChar(ds[i]);
    }
    assert seq(|t|, i requires 0 <= i < |t| => Digit(t[i])) == ds;
    OctetsOfSextets(s);
  }
}
