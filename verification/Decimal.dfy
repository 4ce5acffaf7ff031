/** Numbers as decimal text, padded as the source pads them, and the reader that undoes it. */
module Decimal {

  predicate IsDigit(c: char) {
    '0' <= c <= '9'
  }

  predicate AllDigits(s: string) {
    forall i :: 0 <= i < |s| ==> IsDigit(s[i])
  }

  /** `String(n)` of a natural number. */
  function Digits(n: nat): (s: string)
    ensures |s| >= 1 && AllDigits(s)
  {
    if n < 10 then ['0' + n as char] else Digits(n / 10) + ['0' + (n % 10) as char]
  }

  /** `text.padStart(width, '0')`. */
  function PadStart(s: string, width: nat): (r: string)
    ensures |s| >= width ==> r == s
    ensures |s| < width ==> |r| == width
    ensures AllDigits(s) ==> AllDigits(r)
    decreases width - |s|
  {
    if |s| >= width then s else PadStart("0" + s, width)
  }

  function ReadDigits(s: string): nat
    requires AllDigits(s)
  {
    if s == "" then 0 else ReadDigits(s[..|s| - 1]) * 10 + (s[|s| - 1] - '0') as nat
  }

  lemma {:induction false} ReadsDigits(n: nat)
    ensures ReadDigits(Digits(n)) == n
  {
    if n >= 10 {
      ReadsDigits(n / 10);
      assert Digits(n)[..|Digits(n)| - 1] == Digits(n / 10);
    } else {
      assert Digits(n)[..0] == "";
    }
  }

  lemma {:induction false} LeadingZero(s: string)
    requires AllDigits(s)
    ensures AllDigits("0" + s) && ReadDigits("0" + s) == ReadDigits(s)
  {
    var t := "0" + s;
    if s == "" {
      assert t[..|t| - 1] == "";
    } else {
      LeadingZero(s[..|s| - 1]);
      assert t[..|t| - 1] == "0" + s[..|s| - 1];
    }
  }

  lemma {:induction false} ReadsPadded(s: string, width: nat)
    requires AllDigits(s)
    ensures ReadDigits(PadStart(s, width)) == ReadDigits(s)
    decreases width - |s|
  {
    if |s| < width {
      LeadingZero(s);
      ReadsPadded("0" + s, width);
    }
  }

  /** Padded numbers are different when the numbers are, however many digits they have. */
  lemma PaddedInjective(m: nat, n: nat, width: nat)
    requires PadStart(Digits(m), width) == PadStart(Digits(n), width)
    ensures m == n
  {
    ReadsPadded(Digits(m), width);
    ReadsPadded(Digits(n), width);
    ReadsDigits(m);
    ReadsDigits(n);
  }

  /** `i` is where the last hyphen of a text stands. */
  ghost predicate LastHyphen(s: string, i: nat) {
    i < |s| && s[i] == '-' && forall j :: i < j < |s| ==> s[j] != '-'
  }

  lemma LastHyphenOf(a: string, x: string)
    requires '-' !in x
    ensures LastHyphen(a + "-" + x, |a|)
    ensures (a + "-" + x)[..|a|] == a && (a + "-" + x)[|a| + 1..] == x
  {
    forall j | |a| < j < |a + "-" + x| ensures (a + "-" + x)[j] != '-' {
      assert (a + "-" + x)[j] == x[j - |a| - 1];
    }
  }

  /** What stands before and after the last hyphen is determined by the whole. */
  lemma SplitAtLastHyphen(a: string, x: string, b: string, y: string)
    requires a + "-" + x == b + "-" + y
    requires '-' !in x && '-' !in y
    ensures a == b && x == y
  {
    LastHyphenOf(a, x);
    LastHyphenOf(b, y);
  }
}
