/** Decimal numerals as JavaScript writes them for a non-negative integer
    (`n.toString()`, or `${n}` in a template literal), left padding as in
    `String.prototype.padStart`, and the facts about '-'-separated strings
    that the cache keys and operation hashes rely on. */
module Numerals {

  predicate IsDigit(c: char) {
    '0' <= c <= '9'
  }

  predicate AllDigits(s: string) {
    forall i :: 0 <= i < |s| ==> IsDigit(s[i])
  }

  function DigitChar(d: nat): (c: char)
    requires d < 10
    ensures IsDigit(c) && c as int - '0' as int == d
  {
    ('0' as int + d) as char
  }

  function DigitValue(c: char): (d: nat)
    requires IsDigit(c)
    ensures d < 10
  {
    c as int - '0' as int
  }

  /** The number a string of decimal digits denotes, most significant first. */
  function DigitsValue(s: string): (v: nat)
    requires AllDigits(s)
  {
    if s == [] then 0 else DigitsValue(s[..|s| - 1]) * 10 + DigitValue(s[|s| - 1])
  }

  function Pow10(k: nat): (p: nat)
    ensures p >= 1
  {
    if k == 0 then 1 else 10 * Pow10(k - 1)
  }

  /** The decimal numeral of `n`: a non-empty string of digits (see
      `NatToStringValue` for the number it denotes). */
  function NatToString(n: nat): (r: string)
    ensures |r| >= 1 && AllDigits(r)
  {
    if n < 10 then [DigitChar(n)] else NatToString(n / 10) + [DigitChar(n % 10)]
  }

  /** Reading the numeral of `n` back gives `n`, and its length is the number
      of decimal places of `n`: no superfluous leading zeros. */
  lemma {:induction false} NatToStringValue(n: nat)
    ensures var r := NatToString(n);
      && DigitsValue(r) == n
      && n < Pow10(|r|)
      && (|r| == 1 || Pow10(|r| - 1) <= n)
  {
    if n >= 10 {
      var prefix := NatToString(n / 10);
      var r := NatToString(n);
      assert r[..|r| - 1] == prefix;
      NatToStringValue(n / 10);
    }
  }

  lemma {:induction false} NatToStringInjective(m: nat, n: nat)
    requires NatToString(m) == NatToString(n)
    ensures m == n
  {
    NatToStringValue(m);
    NatToStringValue(n);
  }

  lemma {:induction false} Pow10Monotone(j: nat, k: nat)
    requires j <= k
    ensures Pow10(j) <= Pow10(k)
  {
    if j < k {
      Pow10Monotone(j, k - 1);
    }
  }

  /** A number between 10^(k-1) and 10^k has a numeral of exactly k digits. */
  lemma NatToStringLength(n: nat, k: nat)
    requires 1 <= k
    requires Pow10(k - 1) <= n < Pow10(k)
    ensures |NatToString(n)| == k
  {
    NatToStringValue(n);
    var len := |NatToString(n)|;
    if len < k {
      Pow10Monotone(len, k - 1);
    } else if len > k {
      Pow10Monotone(k, len - 1);
    }
  }

  /** `s.padStart(width, c)` for a one-character pad string: `s` unchanged
      when it is already `width` long, otherwise `s` preceded by enough
      copies of `c` to make it `width` long (`PadStartSuffix`, `PadStartFill`). */
  function PadStart(s: string, width: nat, c: char): (r: string)
    ensures |r| == if |s| >= width then |s| else width
    decreases width - |s|
  {
    if |s| >= width then s else PadStart([c] + s, width, c)
  }

  /** Padding keeps `s` itself at the end. */
  lemma {:induction false} PadStartSuffix(s: string, width: nat, c: char)
    ensures var r := PadStart(s, width, c); r[|r| - |s|..] == s
    decreases width - |s|
  {
    if |s| < width {
      PadStartSuffix([c] + s, width, c);
      var r := PadStart(s, width, c);
      assert r[|r| - |s|..] == r[|r| - |s| - 1..][1..];
    }
  }

  /** Everything `PadStart` puts in front of `s` is the pad character. */
  lemma {:induction false} PadStartFill(s: string, width: nat, c: char, i: nat)
    requires i < |PadStart(s, width, c)| - |s|
    ensures PadStart(s, width, c)[i] == c
    decreases width - |s|
  {
    if |s| < width {
      var r := PadStart([c] + s, width, c);
      if i < |r| - |s| - 1 {
        PadStartFill([c] + s, width, c, i);
      } else {
        PadStartSuffix([c] + s, width, c);
        assert r[|r| - |s| - 1..][0] == c;
      }
    }
  }

  lemma {:induction false} LeadingZero(s: string)
    requires AllDigits(s)
    ensures AllDigits(['0'] + s)
    ensures DigitsValue(['0'] + s) == DigitsValue(s)
  {
    var z := ['0'] + s;
    if s != [] {
      assert z[..|z| - 1] == ['0'] + s[..|s| - 1];
      LeadingZero(s[..|s| - 1]);
    } else {
      assert z[..0] == [];
    }
  }

  /** Padding a numeral with zeros keeps it a numeral of the same number. */
  lemma {:induction false} ZeroPadValue(s: string, width: nat)
    requires AllDigits(s)
    ensures AllDigits(PadStart(s, width, '0'))
    ensures DigitsValue(PadStart(s, width, '0')) == DigitsValue(s)
    decreases width - |s|
  {
    if |s| < width {
      LeadingZero(s);
      ZeroPadValue(['0'] + s, width);
    }
  }

  /** The part after the last '-' of `a + "-" + d` is `d` whenever `d` holds
      no '-', so such a string determines both `a` and `d`. */
  lemma SplitAtLastDash(a: string, d: string, b: string, e: string)
    requires '-' !in d && '-' !in e
    requires a + "-" + d == b + "-" + e
    ensures a == b && d == e
  {
    var s := a + "-" + d;
    assert |d| == |e| by {
      assert s[|a|] == '-' && s[|b|] == '-';
    }
    assert a == s[..|a|] && b == s[..|b|];
    assert d == s[|a| + 1..] && e == s[|b| + 1..];
  }

  lemma DigitsHaveNoDash(s: string)
    requires AllDigits(s)
    ensures '-' !in s
  {
  }
}
