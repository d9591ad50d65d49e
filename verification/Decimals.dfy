/** Decimal rendering of numbers, as `toString` and `padStart` do it. */
module Decimals {

  function Digit(d: nat): (c: char)
    requires d < 10
    ensures '0' <= c <= '9'
  {
    '0' + d as char
  }

  function DigitValue(c: char): nat
    requires '0' <= c <= '9'
  {
    (c - '0') as nat
  }

  predicate IsDigits(s: string) {
    forall k :: 0 <= k < |s| ==> '0' <= s[k] <= '9'
  }

  function ToString(n: nat): (s: string)
    ensures IsDigits(s) && s != ""
  {
    if n < 10 then [Digit(n)] else ToString(n / 10) + [Digit(n % 10)]
  }

  function Zeros(k: nat): (s: string)
    ensures IsDigits(s) && |s| == k
  {
    seq(k, _ => '0')
  }

  function PadStart(s: string, width: nat): string {
    if |s| >= width then s else Zeros(width - |s|) + s
  }

  /** The number a digit string denotes. */
  function Value(s: string): nat
    requires IsDigits(s)
  {
    if s == "" then 0 else 10 * Value(s[..|s| - 1]) + DigitValue(s[|s| - 1])
  }

  lemma {:induction false} ValueOfToString(n: nat)
    ensures Value(ToString(n)) == n
  {
    if n >= 10 {
      ValueOfToString(n / 10);
      var s := ToString(n);
      assert s[..|s| - 1] == ToString(n / 10);
    } else {
      assert [Digit(n)][..0] == "";
    }
  }

  lemma {:induction false} LeadingZeros(k: nat, s: string)
    requires IsDigits(s)
    ensures IsDigits(Zeros(k) + s) && Value(Zeros(k) + s) == Value(s)
    decreases |s|, k
  {
    if s == "" {
      if k > 0 {
        LeadingZeros(k - 1, s);
        assert (Zeros(k) + s)[..k - 1] == Zeros(k - 1) + s;
      }
    } else {
      LeadingZeros(k, s[..|s| - 1]);
      assert (Zeros(k) + s)[..k + |s| - 1] == Zeros(k) + s[..|s| - 1];
    }
  }

  /** Reading back a padded number, also one that has outgrown its width. */
  lemma PaddedRoundTrip(n: nat, width: nat)
    ensures IsDigits(PadStart(ToString(n), width)) && Value(PadStart(ToString(n), width)) == n
    ensures |PadStart(ToString(n), width)| >= width
  {
    ValueOfToString(n);
    if |ToString(n)| < width {
      LeadingZeros(width - |ToString(n)|, ToString(n));
    }
  }

  /** A larger number never has fewer digits. */
  lemma {:induction false} LongerIsLarger(m: nat, n: nat)
    requires m <= n
    ensures |ToString(m)| <= |ToString(n)|
  {
    if n >= 10 && m >= 10 {
      LongerIsLarger(m / 10, n / 10);
    }
  }
}
