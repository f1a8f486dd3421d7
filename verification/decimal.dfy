/** Decimal text as the C library writes and reads it: printf's `%i` and
    `%u`, and atoi. */
module Decimal {
  predicate IsDigit(c: char) {
    '0' <= c <= '9'
  }

  predicate AllDigits(s: string) {
    forall i :: 0 <= i < |s| ==> IsDigit(s[i])
  }

  function DigitChar(d: nat): (c: char)
    requires d < 10
    ensures IsDigit(c)
  {
    ('0' as int + d) as char
  }

  function DigitValue(c: char): (d: nat)
    requires IsDigit(c)
    ensures d < 10
  {
    c as int - '0' as int
  }

  function Pow10(k: nat): (r: nat)
    ensures r >= 1
  {
    if k == 0 then 1 else 10 * Pow10(k - 1)
  }

  /** The decimal digits of `n`, most significant first, without leading
      zeros: what `%u` writes. */
  function DigitsOf(n: nat): (r: string)
    ensures |r| >= 1 && AllDigits(r)
    ensures r[0] == '0' ==> n == 0
  {
    if n < 10 then [DigitChar(n)] else DigitsOf(n / 10) + [DigitChar(n % 10)]
  }

  /** The number a run of decimal digits denotes. */
  function ValueOf(s: string): nat
    requires AllDigits(s)
  {
    if |s| == 0 then 0 else ValueOf(s[..|s| - 1]) * 10 + DigitValue(s[|s| - 1])
  }

  /** Reading back the digits written for `n` gives `n`. */
  lemma {:induction false} ValueOfDigitsOf(n: nat)
    ensures ValueOf(DigitsOf(n)) == n
  {
    var s := DigitsOf(n);
    if n >= 10 {
      ValueOfDigitsOf(n / 10);
      assert s[..|s| - 1] == DigitsOf(n / 10);
      assert DigitValue(s[|s| - 1]) == n % 10;
    }
  }

  /** `n` takes at most `k` digits exactly when it is below 10^k. */
  lemma {:induction false} DigitsOfFits(n: nat, k: nat)
    requires k >= 1
    ensures |DigitsOf(n)| <= k <==> n < Pow10(k)
  {
    if n >= 10 {
      if k == 1 {
        assert |DigitsOf(n)| == |DigitsOf(n / 10)| + 1;
      } else {
        DigitsOfFits(n / 10, k - 1);
      }
    }
  }

  /** What `%i` writes for `n`. */
  function IntText(n: int): (r: string)
    ensures |r| >= 1
  {
    if n < 0 then "-" + DigitsOf(-n) else DigitsOf(n)
  }

  /** The white space that atoi skips (C's isspace in the "C" locale). */
  predicate IsSpace(c: char) {
    c == ' ' || c == '\t' || c == '\n' || c == '\r' || c as int == 11 || c as int == 12
  }

  function SkipSpace(s: string): (r: string)
    ensures |r| <= |s| && r == s[|s| - |r|..]
    ensures |r| > 0 ==> !IsSpace(r[0])
    ensures forall i :: 0 <= i < |s| - |r| ==> IsSpace(s[i])
  {
    if |s| > 0 && IsSpace(s[0]) then SkipSpace(s[1..]) else s
  }

  /** The longest run of digits `s` starts with. */
  function LeadingDigits(s: string): (r: string)
    ensures |r| <= |s| && r == s[..|r|] && AllDigits(r)
    ensures |r| < |s| ==> !IsDigit(s[|r|])
  {
    if |s| > 0 && IsDigit(s[0]) then [s[0]] + LeadingDigits(s[1..]) else ""
  }

  /** atoi: leading white space skipped, one optional sign, then the longest
      run of digits; no digits reads as 0. Overflow is not modelled. */
  function Atoi(s: string): (r: int)
    ensures AllDigits(s) && |s| > 0 ==> r == ValueOf(s)
    ensures r < 0 ==> '-' in s
    ensures NoDigit(s) ==> r == 0
  {
    var t := SkipSpace(s);
    assert AllDigits(s) && |s| > 0 ==> t == s && LeadingDigits(t) == s by {
      if AllDigits(s) && |s| > 0 {
        assert !IsSpace(s[0]);
        LeadingDigitsAll(s);
      }
    }
    assert NoDigit(s) ==> NoDigit(t) by {
      if NoDigit(s) {
        forall i | 0 <= i < |t| ensures !IsDigit(t[i]) {
          assert t[i] == s[|s| - |t| + i];
        }
      }
    }
    if |t| > 0 && t[0] == '-' then
      assert NoDigit(t) ==> LeadingDigits(t[1..]) == "" by {
        if NoDigit(t) && |t| > 1 {
          assert t[1..][0] == t[1];
        }
      }
      assert t[0] == s[|s| - |t|];
      0 - ValueOf(LeadingDigits(t[1..]))
    else if |t| > 0 && t[0] == '+' then
      assert NoDigit(t) ==> LeadingDigits(t[1..]) == "" by {
        if NoDigit(t) && |t| > 1 {
          assert t[1..][0] == t[1];
        }
      }
      ValueOf(LeadingDigits(t[1..]))
    else ValueOf(LeadingDigits(t))
  }

  predicate NoDigit(s: string) {
    forall i :: 0 <= i < |s| ==> !IsDigit(s[i])
  }

  lemma LeadingDigitsAll(s: string)
    requires AllDigits(s)
    ensures LeadingDigits(s) == s
  {
    if |s| > 0 {
      LeadingDigitsAll(s[1..]);
    }
  }

  /** A run of digits is read by atoi as the number it denotes. */
  lemma {:induction false} AtoiDigits(s: string)
    requires AllDigits(s) && |s| > 0
    ensures Atoi(s) == ValueOf(s)
  {
    assert !IsSpace(s[0]);
    LeadingDigitsAll(s);
  }

  /** A minus sign before a run of digits negates it. */
  lemma {:induction false} AtoiNegative(s: string)
    requires AllDigits(s)
    ensures Atoi("-" + s) == 0 - ValueOf(s)
  {
    var t := "-" + s;
    assert !IsSpace(t[0]) && t[1..] == s;
    LeadingDigitsAll(s);
  }

  /** atoi reads back what `%i` writes. */
  lemma {:induction false} AtoiIntText(n: int)
    ensures Atoi(IntText(n)) == n
  {
    if n < 0 {
      var d := DigitsOf(-n);
      assert IntText(n) == "-" + d;
      AtoiNegative(d);
      ValueOfDigitsOf(-n);
    } else {
      var d := DigitsOf(n);
      assert IntText(n) == d;
      AtoiDigits(d);
      ValueOfDigitsOf(n);
    }
  }
}
