/**
 * The two pieces of Python string behaviour the converter relies on:
 * the ordering `<` on `str` (used by the sort key) and the decimal
 * rendering of a non-negative `int` inside an f-string (used by the
 * block identifier), together with a decoder for that rendering.
 */
module Strings {
  import opened Wrappers

  /** Python's `a < b` on `str`: code points compared left to right, a proper prefix first. */
  predicate StrLt(a: string, b: string)
    decreases |a|
  {
    if a == [] then b != []
    else if b == [] then false
    else if a[0] != b[0] then a[0] < b[0]
    else StrLt(a[1..], b[1..])
  }

  lemma {:induction false} StrLtIrreflexive(a: string)
    ensures !StrLt(a, a)
    decreases |a|
  {
    if a != [] {
      StrLtIrreflexive(a[1..]);
    }
  }

  lemma {:induction false} StrLtTransitive(a: string, b: string, c: string)
    requires StrLt(a, b) && StrLt(b, c)
    ensures StrLt(a, c)
    decreases |a|
  {
    if a != [] && a[0] == b[0] && b[0] == c[0] {
      StrLtTransitive(a[1..], b[1..], c[1..]);
    }
  }

  lemma StrLtAsymmetric(a: string, b: string)
    requires StrLt(a, b)
    ensures !StrLt(b, a)
  {
    if StrLt(b, a) {
      StrLtTransitive(a, b, a);
      StrLtIrreflexive(a);
    }
  }

  /** Any two different strings are ordered one way or the other. */
  lemma {:induction false} StrLtTotal(a: string, b: string)
    ensures a == b || StrLt(a, b) || StrLt(b, a)
    decreases |a|
  {
    if a != [] && b != [] && a[0] == b[0] {
      StrLtTotal(a[1..], b[1..]);
      if a[1..] == b[1..] {
        assert a == [a[0]] + a[1..] && b == [b[0]] + b[1..];
      }
    }
  }

  predicate IsDigit(c: char) {
    '0' <= c <= '9'
  }

  predicate AllDigits(s: string) {
    forall i :: 0 <= i < |s| ==> IsDigit(s[i])
  }

  function DigitValue(c: char): nat
    requires IsDigit(c)
  {
    c as int - '0' as int
  }

  function DigitChar(d: nat): (c: char)
    requires d < 10
    ensures IsDigit(c) && DigitValue(c) == d
  {
    ('0' as int + d) as char
  }

  /** `str(n)` for a non-negative Python `int`: most significant digit first, no leading zeros. */
  function Dec(n: nat): (s: string)
    ensures |s| > 0 && AllDigits(s)
    decreases n
  {
    if n < 10 then [DigitChar(n)] else Dec(n / 10) + [DigitChar(n % 10)]
  }

  /** The value of a run of decimal digits (0 for the empty run). */
  function DigitsValue(s: string): nat
    requires AllDigits(s)
    decreases |s|
  {
    if s == [] then 0 else DigitsValue(s[..|s| - 1]) * 10 + DigitValue(s[|s| - 1])
  }

  /** Decodes a decimal numeral; anything that is not a non-empty run of digits is rejected. */
  function ParseDec(s: string): Option<nat> {
    if s != [] && AllDigits(s) then Some(DigitsValue(s)) else None
  }

  lemma {:induction false} ParseDecOfDec(n: nat)
    ensures ParseDec(Dec(n)) == Some(n)
    decreases n
  {
    var s := Dec(n);
    if n < 10 {
      assert s[..|s| - 1] == [];
      assert DigitsValue(s) == DigitValue(s[0]) == n;
    } else {
      ParseDecOfDec(n / 10);
      assert s[..|s| - 1] == Dec(n / 10);
    }
  }

  /** Like `str(n)`, the rendering has no leading zero: only 0 itself starts with '0'. */
  lemma {:induction false} DecNoLeadingZero(n: nat)
    ensures Dec(n)[0] == '0' ==> n == 0
    decreases n
  {
    if n >= 10 {
      DecNoLeadingZero(n / 10);
      assert Dec(n)[0] == Dec(n / 10)[0];
    }
  }

  /** A numeral without a leading zero (or the numeral "0") is what `Dec` gives for its value. */
  predicate Canonical(s: string) {
    s != [] && AllDigits(s) && (s[0] != '0' || |s| == 1)
  }

  lemma {:induction false} DigitsValueAtLeast(s: string)
    requires s != [] && AllDigits(s) && s[0] != '0'
    ensures DigitsValue(s) >= 1
    decreases |s|
  {
    if |s| > 1 {
      DigitsValueAtLeast(s[..|s| - 1]);
    }
  }

  lemma {:induction false} DecOfCanonical(s: string)
    requires Canonical(s)
    ensures Dec(DigitsValue(s)) == s
    decreases |s|
  {
    var n := DigitsValue(s);
    var init, c := s[..|s| - 1], s[|s| - 1];
    assert DigitChar(DigitValue(c)) == c;
    if |s| == 1 {
      assert init == [];
      assert [c] == s;
    } else {
      DigitsValueAtLeast(init);
      DecOfCanonical(init);
      DecNoLeadingZero(n);
      assert n / 10 == DigitsValue(init) && n % 10 == DigitValue(c);
      assert init + [c] == s;
    }
  }

  lemma DecInjective(m: nat, n: nat)
    requires Dec(m) == Dec(n)
    ensures m == n
  {
    ParseDecOfDec(m);
    ParseDecOfDec(n);
  }
}
