/** Decimal rendering of integers, as Java's string concatenation with a
    `Long` or an `Integer` operand produces it (`"-"` for negative values,
    no leading zeros), together with the parser that inverts it. */
module Decimal {

  predicate IsDigit(c: char) {
    '0' <= c <= '9'
  }

  /** A character that can occur in a rendered integer. */
  predicate IsNumeral(c: char) {
    c == '-' || IsDigit(c)
  }

  function DigitChar(d: nat): (c: char)
    requires d < 10
    ensures IsDigit(c)
  {
    ('0' as int + d) as char
  }

  function DigitValue(c: char): (d: nat)
    requires IsDigit(c)
    ensures d < 10
  {
    c as int - '0' as int
  }

  /** The decimal digits of a non-negative number, most significant first. */
  function FromNat(n: nat): (s: string)
    ensures |s| >= 1
    ensures forall i :: 0 <= i < |s| ==> IsDigit(s[i])
    decreases n
  {
    if n < 10 then [DigitChar(n)] else FromNat(n / 10) + [DigitChar(n % 10)]
  }

  /** `String.valueOf(n)` for a Java integral value `n`. */
  function FromInt(n: int): (s: string)
    ensures |s| >= 1
    ensures forall i :: 0 <= i < |s| ==> IsNumeral(s[i])
    ensures s[0] == '-' <==> n < 0
  {
    if n < 0 then "-" + FromNat(-n) else FromNat(n)
  }

  /** Reads a string of digits back as a number (Horner's rule from the right). */
  function ToNat(s: string): nat
    requires forall i :: 0 <= i < |s| ==> IsDigit(s[i])
  {
    if s == [] then 0 else ToNat(s[..|s| - 1]) * 10 + DigitValue(s[|s| - 1])
  }

  /** Reads a rendered integer back. */
  function ToInt(s: string): int
    requires |s| >= 1
    requires forall i :: 0 <= i < |s| ==> IsNumeral(s[i])
    requires forall i :: 1 <= i < |s| ==> IsDigit(s[i])
  {
    if s[0] == '-' then 0 - ToNat(s[1..])
    else assert IsNumeral(s[0]); ToNat(s)
  }

  lemma {:induction false} NatRoundTrip(n: nat)
    ensures ToNat(FromNat(n)) == n
    decreases n
  {
    if n >= 10 {
      var prefix := FromNat(n / 10);
      var s := prefix + [DigitChar(n % 10)];
      assert s[..|s| - 1] == prefix;
      NatRoundTrip(n / 10);
    }
  }

  /** Parsing a rendered integer gives the integer back. */
  lemma IntRoundTrip(n: int)
    ensures forall i :: 1 <= i < |FromInt(n)| ==> IsDigit(FromInt(n)[i])
    ensures ToInt(FromInt(n)) == n
  {
    if n < 0 {
      assert FromInt(n)[1..] == FromNat(-n);
      NatRoundTrip(-n);
    } else {
      NatRoundTrip(n);
    }
  }

  /** Distinct integers have distinct renderings. */
  lemma FromIntInjective(a: int, b: int)
    requires FromInt(a) == FromInt(b)
    ensures a == b
  {
    IntRoundTrip(a);
    IntRoundTrip(b);
  }

  /** A rendered integer never contains a character that is not a numeral. */
  lemma RenderingAvoids(n: int, c: char)
    requires !IsNumeral(c)
    ensures forall i :: 0 <= i < |FromInt(n)| ==> FromInt(n)[i] != c
  {
  }

  /** Equal strings with a common prefix have equal remainders. */
  lemma DropPrefix(p: string, x: string, y: string)
    requires p + x == p + y
    ensures x == y
  {
    assert x == (p + x)[|p|..];
  }

  /** Where `sep` stands in `a + sep + b`: after every character of `a`. */
  lemma SeparatorPosition(a: string, sep: string, b: string)
    ensures |sep| >= 1 ==> (a + sep + b)[|a|] == sep[0]
    ensures forall i :: 0 <= i < |a| ==> (a + sep + b)[i] == a[i]
  {
  }

  /** If two strings that never contain `sep[0]` are each followed by `sep`
      and something else, and the results agree, then the two strings agree
      and so do the two remainders. This is what makes a message assembled
      from rendered integers and separators readable back. */
  lemma SplitAtSeparator(a1: string, b1: string, a2: string, b2: string, sep: string)
    requires |sep| >= 1
    requires forall i :: 0 <= i < |a1| ==> a1[i] != sep[0]
    requires forall i :: 0 <= i < |a2| ==> a2[i] != sep[0]
    requires a1 + sep + b1 == a2 + sep + b2
    ensures a1 == a2 && b1 == b2
  {
    var whole := a1 + sep + b1;
    SeparatorPosition(a1, sep, b1);
    SeparatorPosition(a2, sep, b2);
    if |a1| < |a2| {
      assert false;
    } else if |a2| < |a1| {
      assert false;
    }
    assert a1 == whole[..|a1|] == a2;
    assert b1 == whole[|a1| + |sep|..] == b2;
  }

  /** A message made of a prefix, a rendered integer, a separator that starts
      with a non-numeral, and another rendered integer determines both
      integers. */
  lemma ReadBackPair(p: string, sep: string, x1: int, y1: int, x2: int, y2: int)
    requires |sep| >= 1 && !IsNumeral(sep[0])
    requires p + FromInt(x1) + sep + FromInt(y1) == p + FromInt(x2) + sep + FromInt(y2)
    ensures x1 == x2 && y1 == y2
  {
    var a1, a2 := FromInt(x1), FromInt(x2);
    var b1, b2 := FromInt(y1), FromInt(y2);
    assert p + a1 + sep + b1 == p + (a1 + sep + b1);
    assert p + a2 + sep + b2 == p + (a2 + sep + b2);
    DropPrefix(p, a1 + sep + b1, a2 + sep + b2);
    RenderingAvoids(x1, sep[0]);
    RenderingAvoids(x2, sep[0]);
    SplitAtSeparator(a1, b1, a2, b2, sep);
    FromIntInjective(x1, x2);
    FromIntInjective(y1, y2);
  }
}
