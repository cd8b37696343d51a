/** Decimal text of integers, as `to_string` writes it and `parse` reads it. */
module Decimal {
  import opened Wrappers

  predicate IsDigit(c: char) {
    '0' <= c <= '9'
  }

  function DigitChar(n: int): (c: char)
    requires 0 <= n < 10
    ensures IsDigit(c) && c as int - '0' as int == n
  {
    ('0' as int + n) as char
  }

  function Digits(n: nat): (s: string)
    ensures |s| >= 1
    ensures forall i :: 0 <= i < |s| ==> IsDigit(s[i])
    ensures |s| > 1 ==> s[0] != '0'
  {
    if n < 10 then [DigitChar(n)] else Digits(n / 10) + [DigitChar(n % 10)]
  }

  function PrintInt(n: int): string {
    if n < 0 then "-" + Digits(-n) else Digits(n)
  }

  function DigitValue(c: char): nat
    requires IsDigit(c)
  {
    c as int - '0' as int
  }

  function ToNat(s: string): (n: nat)
    requires forall i :: 0 <= i < |s| ==> IsDigit(s[i])
  {
    if s == "" then 0
    else ToNat(s[..|s| - 1]) * 10 + DigitValue(s[|s| - 1])
  }

  lemma {:induction false} ToNatDigits(n: nat)
    ensures ToNat(Digits(n)) == n
  {
    var s := Digits(n);
    if n >= 10 {
      ToNatDigits(n / 10);
      assert s[..|s| - 1] == Digits(n / 10);
    } else {
      assert s[..0] == "";
    }
  }

  /** Length of the longest prefix of digits. */
  function Span(s: string): (k: nat)
    ensures k <= |s|
    ensures forall i :: 0 <= i < k ==> IsDigit(s[i])
    ensures k < |s| ==> !IsDigit(s[k])
  {
    if s == "" || !IsDigit(s[0]) then 0 else 1 + Span(s[1..])
  }

  lemma SpanOfDigits(a: string, b: string)
    requires forall i :: 0 <= i < |a| ==> IsDigit(a[i])
    requires b != "" ==> !IsDigit(b[0])
    ensures Span(a + b) == |a|
  {
    var s, k := a + b, Span(a + b);
    assert forall i :: 0 <= i < |a| ==> s[i] == a[i];
    assert b != "" ==> s[|a|] == b[0];
  }

  /** `u16::from_str` and `u64::from_str`: an optional plus sign, then digits, leading zeros allowed. */
  function ParseUnsigned(s: string, end: nat): (r: Option<nat>)
    ensures r.Some? ==> r.value < end
  {
    var t := if s != "" && s[0] == '+' then s[1..] else s;
    if t == "" || Span(t) < |t| then None
    else
      var n := ToNat(t);
      if n < end then Some(n) else None
  }

  lemma ParseUnsignedOfDigits(n: nat, end: nat)
    ensures ParseUnsigned(Digits(n), end) == if n < end then Some(n) else None
  {
    var s := Digits(n);
    ToNatDigits(n);
    SpanOfDigits(s, "");
    assert s + "" == s;
    assert IsDigit(s[0]);
  }
}
