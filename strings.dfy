/**
  String operations the model is built from, on `string` (a `seq<char>`):
  comparison of strings by character code, which stands in for the
  source's comparison of the `Date` objects built from date strings; the decimal
  rendering of an integral Number (`toString`, template literals), and the
  first field of `String.prototype.split` with a one-character separator.
 */
module Strings {
  import opened Wrappers

  // ---------------------------------------------------------------------
  // Lexicographic order

  /** `a` sorts before or equal to `b`, comparing character codes left to right. */
  predicate LexLe(a: string, b: string)
    ensures a <= b ==> LexLe(a, b)
    ensures LexLe(a, b) && a != [] ==> b != [] && a[0] <= b[0]
  {
    a == [] || (b != [] && (a[0] < b[0] || (a[0] == b[0] && LexLe(a[1..], b[1..]))))
  }

  lemma {:induction false} LexLeReflexive(a: string)
    ensures LexLe(a, a)
  {
    if a != [] {
      LexLeReflexive(a[1..]);
    }
  }

  lemma {:induction false} LexLeTotal(a: string, b: string)
    ensures LexLe(a, b) || LexLe(b, a)
  {
    if a != [] && b != [] && a[0] == b[0] {
      LexLeTotal(a[1..], b[1..]);
    }
  }

  lemma {:induction false} LexLeTransitive(a: string, b: string, c: string)
    requires LexLe(a, b) && LexLe(b, c)
    ensures LexLe(a, c)
  {
    if a != [] && a[0] == b[0] && b[0] == c[0] {
      LexLeTransitive(a[1..], b[1..], c[1..]);
    }
  }

  lemma {:induction false} LexLeAntisymmetric(a: string, b: string)
    requires LexLe(a, b) && LexLe(b, a)
    ensures a == b
  {
    if a != [] {
      LexLeAntisymmetric(a[1..], b[1..]);
      assert a == [a[0]] + a[1..] && b == [b[0]] + b[1..];
    }
  }

  /**
    Comparing two strings whose first parts have the same length: the first
    parts decide unless they are equal, in which case the rest decides.
   */
  lemma {:induction false} LexLeAppend(a1: string, a2: string, b1: string, b2: string)
    requires |a1| == |b1|
    ensures LexLe(a1 + a2, b1 + b2) <==> if a1 == b1 then LexLe(a2, b2) else LexLe(a1, b1)
  {
    if a1 == [] {
      assert a1 + a2 == a2 && b1 + b2 == b2;
    } else {
      assert (a1 + a2)[0] == a1[0] && (b1 + b2)[0] == b1[0];
      assert (a1 + a2)[1..] == a1[1..] + a2 && (b1 + b2)[1..] == b1[1..] + b2;
      LexLeAppend(a1[1..], a2, b1[1..], b2);
      if a1[0] == b1[0] {
        assert a1 == b1 <==> a1[1..] == b1[1..] by {
          assert a1 == [a1[0]] + a1[1..] && b1 == [b1[0]] + b1[1..];
        }
      }
    }
  }

  // ---------------------------------------------------------------------
  // Decimal digits

  predicate IsDigit(c: char)
  {
    '0' <= c <= '9'
  }

  predicate AllDigits(s: string)
  {
    forall i :: 0 <= i < |s| ==> IsDigit(s[i])
  }

  function DigitChar(d: nat): (c: char)
    requires d < 10
    ensures IsDigit(c)
  {
    ('0' as int + d) as char
  }

  function DigitValue(c: char): (d: nat)
    requires IsDigit(c)
    ensures d < 10 && DigitChar(d) == c
  {
    c as int - '0' as int
  }

  /** The number a string of decimal digits denotes (the empty string denotes 0). */
  function DigitsValue(s: string): nat
    requires AllDigits(s)
  {
    if s == [] then 0 else DigitsValue(s[..|s| - 1]) * 10 + DigitValue(s[|s| - 1])
  }

  /** The digits of a natural number as `Number.prototype.toString(10)` writes them: no leading zeros. */
  function NatDigits(n: nat): (r: string)
    ensures r != [] && AllDigits(r)
    ensures r[0] == '0' <==> n == 0
    ensures n == 0 ==> r == "0"
  {
    if n < 10 then [DigitChar(n)] else NatDigits(n / 10) + [DigitChar(n % 10)]
  }

  /** Reading back the digits of `n` gives `n`. */
  lemma {:induction false} NatDigitsRoundTrip(n: nat)
    ensures DigitsValue(NatDigits(n)) == n
  {
    if n >= 10 {
      var s := NatDigits(n);
      NatDigitsRoundTrip(n / 10);
      assert s[..|s| - 1] == NatDigits(n / 10);
    }
  }

  /** A number with a last digit appended determines both the number and the digit. */
  lemma AppendDigitInjective(p: nat, c: nat, q: nat, d: nat)
    requires c < 10 && d < 10 && p * 10 + c == q * 10 + d
    ensures p == q && c == d
  {
    assert (p * 10 + c) / 10 == p && (p * 10 + c) % 10 == c;
    assert (q * 10 + d) / 10 == q && (q * 10 + d) % 10 == d;
  }

  /** Equal-length digit strings with the same value are the same string. */
  lemma {:induction false} DigitsValueInjective(s: string, t: string)
    requires AllDigits(s) && AllDigits(t) && |s| == |t|
    requires DigitsValue(s) == DigitsValue(t)
    ensures s == t
  {
    if s != [] {
      var n := |s|;
      var s1, t1 := s[..n - 1], t[..n - 1];
      var c, d := DigitValue(s[n - 1]), DigitValue(t[n - 1]);
      assert DigitsValue(s) == DigitsValue(s1) * 10 + c;
      assert DigitsValue(t) == DigitsValue(t1) * 10 + d;
      AppendDigitInjective(DigitsValue(s1), c, DigitsValue(t1), d);
      assert DigitChar(c) == s[n - 1] && DigitChar(d) == t[n - 1];
      DigitsValueInjective(s1, t1);
      assert s == s1 + [s[n - 1]] && t == t1 + [t[n - 1]];
    }
  }

  /** On digit strings of one length, lexicographic order is numeric order. */
  lemma {:induction false} LexLeDigits(s: string, t: string)
    requires AllDigits(s) && AllDigits(t) && |s| == |t|
    ensures LexLe(s, t) <==> DigitsValue(s) <= DigitsValue(t)
  {
    if s != [] {
      var n := |s|;
      var s1, t1 := s[..n - 1], t[..n - 1];
      var p, q := DigitsValue(s1), DigitsValue(t1);
      var c, d := DigitValue(s[n - 1]), DigitValue(t[n - 1]);
      assert s == s1 + [s[n - 1]] && t == t1 + [t[n - 1]];
      LexLeAppend(s1, [s[n - 1]], t1, [t[n - 1]]);
      LexLeDigits(s1, t1);
      if s1 == t1 {
        assert LexLe([s[n - 1]], [t[n - 1]]) <==> c <= d;
      } else if p < q {
        assert p * 10 + c < (p + 1) * 10 <= q * 10;
      } else if q < p {
        assert q * 10 + d < (q + 1) * 10 <= p * 10;
      } else {
        DigitsValueInjective(s1, t1);
      }
    }
  }

  // ---------------------------------------------------------------------
  // Integers as text

  /** `n.toString()` for an integral Number `n`. */
  function IntToString(n: int): (r: string)
    ensures r != [] && (r[0] == '-' <==> n < 0)
    ensures n < 0 ==> r[1..] == NatDigits(-n)
    ensures n >= 0 ==> r == NatDigits(n)
  {
    if n < 0 then "-" + NatDigits(-n) else NatDigits(n)
  }

  /**
    Reads an optionally signed decimal integer: an optional `+` or `-`
    followed by at least one digit. The inverse of the score renderings.
   */
  function ParseSigned(s: string): Option<int>
  {
    if s == [] then None
    else if s[0] == '+' || s[0] == '-' then
      if |s| > 1 && AllDigits(s[1..]) then
        var magnitude: int := DigitsValue(s[1..]);
        Some(if s[0] == '-' then -magnitude else magnitude)
      else None
    else if AllDigits(s) then Some(DigitsValue(s))
    else None
  }

  /** Reading back the rendering of an integer gives the integer. */
  lemma IntToStringRoundTrip(n: int)
    ensures ParseSigned(IntToString(n)) == Some(n)
  {
    var r := IntToString(n);
    if n < 0 {
      NatDigitsRoundTrip(-n);
      assert r[0] == '-' && r[1..] == NatDigits(-n);
    } else {
      NatDigitsRoundTrip(n);
      assert r[0] != '+' && r[0] != '-' && AllDigits(r);
    }
  }

  // ---------------------------------------------------------------------
  // Splitting

  /** `s.split(sep)[0]`: the longest prefix of `s` that does not contain `sep`. */
  function BeforeFirst(s: string, sep: char): (r: string)
    ensures r <= s && sep !in r
    ensures |r| < |s| ==> s[|r|] == sep
  {
    if s == [] || s[0] == sep then [] else [s[0]] + BeforeFirst(s[1..], sep)
  }
}
