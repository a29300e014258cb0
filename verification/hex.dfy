/** Hexadecimal digit strings: writing a number as zero-padded lower-case digits
    (the `%06x` format) and reading digits back as a number. */
module Hex {

  predicate IsHexDigit(c: char) {
    ('0' <= c <= '9') || ('a' <= c <= 'f') || ('A' <= c <= 'F')
  }

  predicate IsLowerHexDigit(c: char) {
    ('0' <= c <= '9') || ('a' <= c <= 'f')
  }

  predicate AllHexDigits(s: string) {
    forall i :: 0 <= i < |s| ==> IsHexDigit(s[i])
  }

  predicate AllLowerHexDigits(s: string) {
    forall i :: 0 <= i < |s| ==> IsLowerHexDigit(s[i])
  }

  /** The value of one digit; upper- and lower-case letters read alike. */
  function DigitValue(c: char): (n: nat)
    requires IsHexDigit(c)
    ensures n < 16
  {
    if '0' <= c <= '9' then c as int - '0' as int
    else if 'a' <= c <= 'f' then c as int - 'a' as int + 10
    else c as int - 'A' as int + 10
  }

  /** The lower-case digit for a value below sixteen. */
  function LowerDigit(n: nat): (c: char)
    requires n < 16
    ensures IsLowerHexDigit(c) && IsHexDigit(c)
    ensures DigitValue(c) == n
  {
    if n < 10 then (n + '0' as int) as char else (n - 10 + 'a' as int) as char
  }

  lemma LowerDigitOfValue(c: char)
    requires IsLowerHexDigit(c)
    ensures LowerDigit(DigitValue(c)) == c
  {
  }

  function Pow16(k: nat): (p: nat)
    ensures p > 0
  {
    if k == 0 then 1 else 16 * Pow16(k - 1)
  }

  /** The `k` lowest digits of `v`, most significant first, zero padded. */
  function Digits(v: nat, k: nat): (s: string)
    ensures |s| == k
    ensures AllLowerHexDigits(s) && AllHexDigits(s)
  {
    if k == 0 then [] else Digits(v / 16, k - 1) + [LowerDigit(v % 16)]
  }

  /** The number a digit string denotes, most significant digit first. */
  function Parse(s: string): (v: nat)
    requires AllHexDigits(s)
    ensures v < Pow16(|s|)
  {
    if |s| == 0 then 0
    else
      var init := Parse(s[..|s| - 1]);
      assert init * 16 + DigitValue(s[|s| - 1]) < 16 * Pow16(|s| - 1) by {
        assert init + 1 <= Pow16(|s| - 1);
        assert (init + 1) * 16 <= Pow16(|s| - 1) * 16;
      }
      init * 16 + DigitValue(s[|s| - 1])
  }

  /** Reading back the digits of a number that fits in `k` digits gives the number. */
  lemma {:induction false} ParseDigits(v: nat, k: nat)
    requires v < Pow16(k)
    ensures Parse(Digits(v, k)) == v
  {
    if k > 0 {
      var s := Digits(v, k);
      assert s[..|s| - 1] == Digits(v / 16, k - 1);
      ParseDigits(v / 16, k - 1);
    }
  }

  /** Writing a lower-case digit string's value with as many digits gives the string back. */
  lemma {:induction false} DigitsParse(s: string)
    requires AllLowerHexDigits(s)
    ensures Digits(Parse(s), |s|) == s
  {
    if |s| > 0 {
      var init := s[..|s| - 1];
      var last := s[|s| - 1];
      assert AllLowerHexDigits(init);
      DigitsParse(init);
      var v := Parse(s);
      assert v == Parse(init) * 16 + DigitValue(last);
      assert v / 16 == Parse(init) && v % 16 == DigitValue(last);
      LowerDigitOfValue(last);
      assert s == init + [last];
    }
  }
}
