/**
 String helpers shared by the three components: joining with a separator,
 decimal rendering of integers (JavaScript's `String(n)` for integral
 numbers) and infix search.
 */
module Text {

  predicate IsDigit(c: char) {
    '0' <= c <= '9'
  }

  predicate AllDigits(s: string) {
    forall i :: 0 <= i < |s| ==> IsDigit(s[i])
  }

  function DigitChar(d: nat): (c: char)
    requires d < 10
    ensures IsDigit(c)
  {
    "0123456789"[d]
  }

  function DigitValue(c: char): (d: nat)
    requires IsDigit(c)
    ensures d < 10
  {
    (c as int - '0' as int) as nat
  }

  lemma DigitValueOfDigitChar(d: nat)
    requires d < 10
    ensures DigitValue(DigitChar(d)) == d
  {
  }

  /** `String(n)` for a non-negative integer: its decimal digits, no leading zero. */
  function NatToString(n: nat): (s: string)
    ensures |s| >= 1 && AllDigits(s)
    ensures s[0] == '0' ==> n == 0
    decreases n
  {
    if n < 10 then [DigitChar(n)] else NatToString(n / 10) + [DigitChar(n % 10)]
  }

  /** The value of a string of decimal digits. */
  function ParseNat(s: string): nat
    requires AllDigits(s)
    decreases |s|
  {
    if s == [] then 0 else 10 * ParseNat(s[..|s| - 1]) + DigitValue(s[|s| - 1])
  }

  lemma {:induction false} ParseNatOfNatToString(n: nat)
    ensures ParseNat(NatToString(n)) == n
    decreases n
  {
    var s := NatToString(n);
    if n < 10 {
      assert s[..|s| - 1] == [];
      DigitValueOfDigitChar(n);
    } else {
      var a := NatToString(n / 10);
      assert s[..|s| - 1] == a;
      ParseNatOfNatToString(n / 10);
      DigitValueOfDigitChar(n % 10);
    }
  }

  /** `String(n)` for an integer: a minus sign for negatives, then the digits. */
  function IntToString(n: int): (s: string)
    ensures |s| >= 1
    ensures (s[0] == '-') <==> n < 0
    ensures n >= 0 ==> AllDigits(s)
    ensures n < 0 ==> AllDigits(s[1..])
  {
    if n < 0 then "-" + NatToString(-n) else NatToString(n)
  }

  predicate IsIntLiteral(s: string) {
    (|s| >= 1 && s[0] != '-' && AllDigits(s)) || (|s| >= 2 && s[0] == '-' && AllDigits(s[1..]))
  }

  /** Reads back what `IntToString` writes. */
  function ParseInt(s: string): int
    requires IsIntLiteral(s)
  {
    if s[0] == '-' then 0 - ParseNat(s[1..]) else ParseNat(s)
  }

  lemma IntToStringRoundTrip(n: int)
    ensures IsIntLiteral(IntToString(n))
    ensures ParseInt(IntToString(n)) == n
  {
    if n < 0 { NegativeRoundTrip(n); } else { NonNegativeRoundTrip(n); }
  }

  lemma NegativeRoundTrip(n: int)
    requires n < 0
    ensures IsIntLiteral(IntToString(n))
    ensures ParseInt(IntToString(n)) == n
  {
    var m: nat := -n;
    var digits := NatToString(m);
    ParseNatOfNatToString(m);
    NegativeRendering(n, m, digits);
    SignedLiteral(IntToString(n), digits, m);
  }

  lemma NegativeRendering(n: int, m: nat, digits: string)
    requires n < 0 && m == -n && digits == NatToString(m)
    ensures IntToString(n) == "-" + digits
  {
  }

  /** A minus sign before a numeral reads back as the negated value. */
  lemma SignedLiteral(s: string, digits: string, m: nat)
    requires |digits| >= 1 && AllDigits(digits) && ParseNat(digits) == m
    requires s == "-" + digits
    ensures IsIntLiteral(s) && ParseInt(s) == -(m as int)
  {
    assert s[0] == '-';
    assert s[1..] == digits;
  }

  lemma NonNegativeRoundTrip(n: int)
    requires n >= 0
    ensures IsIntLiteral(IntToString(n))
    ensures ParseInt(IntToString(n)) == n
  {
    assert IntToString(n) == NatToString(n);
    ParseNatOfNatToString(n);
  }

  /** JavaScript's `parts.join(sep)` for a one-character separator. */
  function Join(parts: seq<string>, sep: char): string
    decreases |parts|
  {
    if |parts| == 0 then ""
    else if |parts| == 1 then parts[0]
    else parts[0] + [sep] + Join(parts[1..], sep)
  }

  /** A joined text starts with its first part, and the separator follows
      that part when there are more. */
  lemma JoinStartsWithFirst(parts: seq<string>, sep: char)
    requires |parts| > 0
    ensures parts[0] <= Join(parts, sep)
    ensures |parts| > 1 ==> Join(parts, sep)[|parts[0]|] == sep
  {
  }

  predicate StartsWith(s: string, prefix: string) {
    prefix <= s
  }

  predicate EndsWith(s: string, suffix: string) {
    |suffix| <= |s| && s[|s| - |suffix|..] == suffix
  }

  /** `sub` occurs in `s` starting at position `i`. */
  predicate OccursAt(s: string, sub: string, i: int) {
    0 <= i <= |s| - |sub| && s[i..i + |sub|] == sub
  }

  /** `s.includes(sub)`. */
  ghost predicate Contains(s: string, sub: string) {
    exists i :: OccursAt(s, sub, i)
  }

  lemma ContainsMiddle(pre: string, mid: string, post: string)
    ensures Contains(pre + mid + post, mid)
  {
    var s := pre + mid + post;
    assert s[|pre|..|pre| + |mid|] == mid;
    assert OccursAt(s, mid, |pre|);
  }

  lemma ContainsInTail(pre: string, s: string, sub: string)
    requires Contains(s, sub)
    ensures Contains(pre + s, sub)
  {
    var i :| OccursAt(s, sub, i);
    var t := pre + s;
    assert t[|pre| + i..|pre| + i + |sub|] == s[i..i + |sub|];
    assert OccursAt(t, sub, |pre| + i);
  }

  lemma ContainsInSecondOfThree(a: string, b: string, c: string, sep: char, sub: string)
    requires Contains(b, sub)
    ensures Contains(Join([a, b, c], sep), sub)
  {
    JoinThree(a, b, c, sep);
    var i :| OccursAt(b, sub, i);
    var t := a + [sep] + b + [sep] + c;
    var j := |a| + 1 + i;
    assert t[j..j + |sub|] == b[i..i + |sub|];
    assert OccursAt(t, sub, j);
  }

  lemma ContainsInThirdOfThree(a: string, b: string, c: string, sep: char, sub: string)
    requires Contains(c, sub)
    ensures Contains(Join([a, b, c], sep), sub)
  {
    JoinThree(a, b, c, sep);
    ContainsInTail(a + [sep] + b + [sep], c, sub);
  }

  lemma JoinThree(a: string, b: string, c: string, sep: char)
    ensures Join([a, b, c], sep) == a + [sep] + b + [sep] + c
  {
    assert [a, b, c][1..] == [b, c];
    assert [b, c][1..] == [c];
    assert Join([b, c], sep) == b + [sep] + c;
    assert a + [sep] + (b + [sep] + c) == a + [sep] + b + [sep] + c;
  }
}
