/** Decimal digit strings and their values, shared by the IBAN check and the amount conversions. */
module Decimal {

  predicate IsDigit(c: char) {
    '0' <= c <= '9'
  }

  predicate AllDigits(s: string) {
    forall i :: 0 <= i < |s| ==> IsDigit(s[i])
  }

  function DigitVal(c: char): (d: nat)
    requires IsDigit(c)
    ensures d < 10
  {
    c as int - '0' as int
  }

  function DigitChar(d: nat): (c: char)
    requires d < 10
    ensures IsDigit(c) && DigitVal(c) == d
  {
    ('0' as int + d) as char
  }

  /** Horner's rule: the number obtained by appending the digits of `s` to `acc`. */
  function ValueFrom(acc: nat, s: string): nat
    requires AllDigits(s)
    decreases |s|
  {
    if |s| == 0 then acc else ValueFrom(acc * 10 + DigitVal(s[0]), s[1..])
  }

  /** The value of a digit string read as a base-10 numeral (leading zeros allowed, "" is 0). */
  function Value(s: string): nat
    requires AllDigits(s)
  {
    ValueFrom(0, s)
  }

  lemma DigitsAppend(a: string, b: string)
    requires AllDigits(a) && AllDigits(b)
    ensures AllDigits(a + b)
  {
    forall i | 0 <= i < |a + b| ensures IsDigit((a + b)[i]) {
      if i < |a| { assert (a + b)[i] == a[i]; } else { assert (a + b)[i] == b[i - |a|]; }
    }
  }

  lemma {:induction false} ValueFromAppend(acc: nat, a: string, b: string)
    requires AllDigits(a) && AllDigits(b)
    ensures AllDigits(a + b)
    ensures ValueFrom(acc, a + b) == ValueFrom(ValueFrom(acc, a), b)
    decreases |a|
  {
    DigitsAppend(a, b);
    if |a| > 0 {
      assert (a + b)[0] == a[0];
      assert (a + b)[1..] == a[1..] + b;
      ValueFromAppend(acc * 10 + DigitVal(a[0]), a[1..], b);
    } else {
      assert a + b == b;
    }
  }

  lemma ValueSnoc(s: string, c: char)
    requires AllDigits(s) && IsDigit(c)
    ensures AllDigits(s + [c])
    ensures Value(s + [c]) == Value(s) * 10 + DigitVal(c)
  {
    ValueFromAppend(0, s, [c]);
    assert [c][1..] == [];
  }

  /** A numeral in canonical form: non-empty, and no leading zero unless it is "0" itself. */
  predicate IsCanonical(s: string) {
    |s| > 0 && AllDigits(s) && (s[0] == '0' ==> |s| == 1)
  }

  /** The canonical decimal text of a natural number. */
  function FormatNat(n: nat): (s: string)
    ensures IsCanonical(s)
    ensures Value(s) == n
    ensures |s| == 1 <==> n < 10
  {
    if n < 10 then
      ValueSnoc([], DigitChar(n));
      assert [] + [DigitChar(n)] == [DigitChar(n)];
      [DigitChar(n)]
    else
      var p := FormatNat(n / 10);
      ValueSnoc(p, DigitChar(n % 10));
      p + [DigitChar(n % 10)]
  }
}
