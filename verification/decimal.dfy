/** Decimal numerals for non-negative integers, as Python's `str(n)` and an
    f-string `{n}` write them. They appear in chapter keys (`chap_<i>`) and in
    the footer label (`Page <k> of <n>`). `Parse` is the reading direction,
    used to show that the numerals lose no information. */
module Decimal {
  import opened Options

  predicate IsDigit(c: char) {
    '0' <= c <= '9'
  }

  predicate AllDigits(s: string) {
    forall k :: 0 <= k < |s| ==> IsDigit(s[k])
  }

  function DigitChar(d: nat): (c: char)
    requires d < 10
    ensures IsDigit(c)
  {
    ('0' as int + d) as char
  }

  function DigitValue(c: char): (d: nat)
    requires IsDigit(c)
    ensures d < 10
    ensures DigitChar(d) == c
  {
    c as int - '0' as int
  }

  /** The numeral of `n`: at least one digit, no leading zero except for 0 itself. */
  function FromNat(n: nat): (s: string)
    ensures 1 <= |s|
    ensures AllDigits(s)
    ensures |s| == 1 <==> n < 10
    ensures s[0] == '0' <==> n == 0
  {
    if n < 10 then [DigitChar(n)] else FromNat(n / 10) + [DigitChar(n % 10)]
  }

  /** The value of a digit string, most significant digit first. */
  function ToNat(s: string): nat
    requires AllDigits(s)
  {
    if |s| == 0 then 0 else ToNat(s[..|s| - 1]) * 10 + DigitValue(s[|s| - 1])
  }

  /** Reads a non-empty digit string; anything else is refused. */
  function Parse(s: string): Option<nat> {
    if |s| > 0 && AllDigits(s) then Some(ToNat(s)) else None
  }

  lemma {:induction false} ParseFromNat(n: nat)
    ensures Parse(FromNat(n)) == Some(n)
  {
    var s := FromNat(n);
    if n < 10 {
      assert s[..|s| - 1] == [];
      assert DigitValue(s[0]) == n;
      assert ToNat(s) == ToNat(s[..|s| - 1]) * 10 + DigitValue(s[0]);
    } else {
      ParseFromNat(n / 10);
      assert s[..|s| - 1] == FromNat(n / 10);
      assert DigitValue(s[|s| - 1]) == n % 10;
    }
  }

  /** Different numbers never share a numeral. */
  lemma FromNatInjective(a: nat, b: nat)
    ensures FromNat(a) == FromNat(b) ==> a == b
  {
    ParseFromNat(a);
    ParseFromNat(b);
  }

  /** The end of the longest run of digits in `s` that starts at `j`.
      `Heading.NumeralRunEnd` has the same shape for the wider character class
      of the chapter pattern. */
  function DigitRunEnd(s: string, j: nat): (e: nat)
    requires j <= |s|
    ensures j <= e <= |s|
    ensures forall k :: j <= k < e ==> IsDigit(s[k])
    ensures e < |s| ==> !IsDigit(s[e])
    decreases |s| - j
  {
    if j < |s| && IsDigit(s[j]) then DigitRunEnd(s, j + 1) else j
  }

  /** A numeral followed by a non-digit is read back whole. */
  lemma DigitRunOfNumeral(n: nat, rest: string)
    requires |rest| > 0 && !IsDigit(rest[0])
    ensures DigitRunEnd(FromNat(n) + rest, 0) == |FromNat(n)|
  {
    var s := FromNat(n) + rest;
    assert forall k :: 0 <= k < |FromNat(n)| ==> s[k] == FromNat(n)[k];
    assert s[|FromNat(n)|] == rest[0];
  }
}
