/** Decimal text of identifiers, as produced by JavaScript's `String(n)` and
    template literals, its inverse, and the character order that stands for
    `Array.prototype.sort` without a comparator on those texts. */
module Decimal {
  import opened Basics

  predicate IsDigit(c: char)
  {
    '0' <= c <= '9'
  }

  function DigitChar(d: nat): (c: char)
    requires d < 10
    ensures IsDigit(c)
  {
    (('0' as int) + d) as char
  }

  function DigitValue(c: char): (d: nat)
    requires IsDigit(c)
    ensures d < 10 && DigitChar(d) == c
  {
    (c as int) - ('0' as int)
  }

  predicate AllDigits(s: string)
  {
    forall i :: 0 <= i < |s| ==> IsDigit(s[i])
  }

  /** Canonical decimal text: non-empty digits, no leading zero unless the
      text is "0" itself. */
  predicate Canonical(s: string)
  {
    |s| > 0 && AllDigits(s) && (s[0] == '0' ==> |s| == 1)
  }

  /** `String(n)` for a non-negative integer. */
  function NatToString(n: nat): (s: string)
    ensures Canonical(s)
    ensures |s| == 1 <==> n < 10
    decreases n
  {
    if n < 10 then [DigitChar(n)]
    else
      var p := NatToString(n / 10);
      assert p[0] != '0';
      p + [DigitChar(n % 10)]
  }

  /** Value of a digit string read most significant digit first. */
  function DigitsValue(s: string): nat
    requires AllDigits(s)
    decreases |s|
  {
    if |s| == 0 then 0
    else 10 * DigitsValue(s[..|s| - 1]) + DigitValue(s[|s| - 1])
  }

  /** Reading an identifier from text: a non-empty all-digit string is a
      number, anything else is not (JavaScript's NaN). */
  function ParseNat(s: string): (r: Option<nat>)
    ensures r.Some? <==> |s| > 0 && AllDigits(s)
  {
    if |s| > 0 && AllDigits(s) then Some(DigitsValue(s)) else None
  }

  /** The digits of a number's text denote that number. */
  lemma {:induction false} ValueOfNatToString(n: nat)
    ensures DigitsValue(NatToString(n)) == n
    decreases n
  {
    var s := NatToString(n);
    if n >= 10 {
      ValueOfNatToString(n / 10);
      assert s[..|s| - 1] == NatToString(n / 10);
    }
  }

  /** Parsing the text of a number gives the number back. */
  lemma ParseNatToString(n: nat)
    ensures ParseNat(NatToString(n)) == Some(n)
  {
    ValueOfNatToString(n);
  }

  /** Printing a parsed canonical text gives the text back. */
  lemma {:induction false} NatToStringOfValue(s: string)
    requires Canonical(s)
    ensures NatToString(DigitsValue(s)) == s
    decreases |s|
  {
    if |s| > 1 {
      var p := s[..|s| - 1];
      assert Canonical(p);
      NatToStringOfValue(p);
      assert DigitsValue(p) > 0;
      var n := DigitsValue(s);
      assert n / 10 == DigitsValue(p) && n % 10 == DigitValue(s[|s| - 1]);
      assert s == p + [s[|s| - 1]];
    } else {
      assert s == [DigitChar(DigitValue(s[0]))];
    }
  }

  /** Different numbers have different texts. */
  lemma NatToStringInjective(a: nat, b: nat)
    ensures NatToString(a) == NatToString(b) <==> a == b
  {
    ValueOfNatToString(a);
    ValueOfNatToString(b);
  }

  /** Lexicographic order by character, a proper prefix first. A Dafny
      character is a Unicode scalar value, not a UTF-16 code unit, so this is
      JavaScript's default string order only on text inside the Basic
      Multilingual Plane, and in particular on the digit texts of ids. */
  predicate LexLess(a: string, b: string)
    ensures LexLess(a, b) ==> a != b
    ensures |a| < |b| && a == b[..|a|] ==> LexLess(a, b)
    ensures forall k :: 0 <= k < |a| && k < |b| && a[..k] == b[..k] && a[k] != b[k] ==> (LexLess(a, b) <==> a[k] < b[k])
    decreases |a|
  {
    if |a| == 0 then |b| > 0
    else if |b| == 0 then false
    else if a[0] != b[0] then a[0] < b[0]
    else
      assert forall k | 1 <= k < |a| && k < |b| && a[..k] == b[..k] :: a[1..][..k - 1] == b[1..][..k - 1] by {
        forall k | 1 <= k < |a| && k < |b| && a[..k] == b[..k]
          ensures a[1..][..k - 1] == b[1..][..k - 1]
        {
          PrefixTail(a, b, k);
        }
      }
      LexLess(a[1..], b[1..])
  }

  /** Equal prefixes stay equal after dropping their first element. */
  lemma PrefixTail(a: string, b: string, k: int)
    requires 1 <= k <= |a| && k <= |b| && a[..k] == b[..k]
    ensures a[1..][..k - 1] == b[1..][..k - 1]
  {
    var pa, pb, ta, tb := a[..k], b[..k], a[1..][..k - 1], b[1..][..k - 1];
    forall i | 0 <= i < |ta|
      ensures ta[i] == tb[i]
    {
      assert ta[i] == pa[i + 1] && tb[i] == pb[i + 1];
    }
  }

  /** Exactly one of two different strings comes first; equal strings are
      not ordered. */
  lemma {:induction false} LexLessTrichotomy(a: string, b: string)
    ensures a == b ==> !LexLess(a, b)
    ensures a != b ==> (LexLess(a, b) <==> !LexLess(b, a))
    decreases |a|
  {
    if |a| > 0 && |b| > 0 && a[0] == b[0] {
      LexLessTrichotomy(a[1..], b[1..]);
      if a != b {
        assert a == [a[0]] + a[1..] && b == [b[0]] + b[1..];
      }
    }
  }

  /** Appending one more character to strings of equal length. */
  lemma {:induction false} LexLessSnoc(x: string, y: string, c: char, d: char)
    requires |x| == |y|
    ensures LexLess(x + [c], y + [d]) <==> LexLess(x, y) || (x == y && c < d)
    decreases |x|
  {
    if |x| > 0 {
      assert (x + [c])[1..] == x[1..] + [c];
      assert (y + [d])[1..] == y[1..] + [d];
      LexLessSnoc(x[1..], y[1..], c, d);
      if x[0] == y[0] && x[1..] == y[1..] {
        assert x == [x[0]] + x[1..] && y == [y[0]] + y[1..];
      }
    }
  }

  /** On numbers whose texts have the same length, the string order is the
      numeric order. */
  lemma {:induction false} SameLengthOrder(a: nat, b: nat)
    requires |NatToString(a)| == |NatToString(b)|
    ensures LexLess(NatToString(a), NatToString(b)) <==> a < b
    decreases a
  {
    if a < 10 {
      assert b < 10;
    } else {
      assert b >= 10;
      var pa, pb := NatToString(a / 10), NatToString(b / 10);
      SameLengthOrder(a / 10, b / 10);
      NatToStringInjective(a / 10, b / 10);
      LexLessSnoc(pa, pb, DigitChar(a % 10), DigitChar(b % 10));
      assert a == 10 * (a / 10) + a % 10 && b == 10 * (b / 10) + b % 10;
    }
  }
}
