/** The conversions between amounts, cents and euro text, modelled on the decimal text the
    float formatting produces rather than on the binary floats themselves. */
module Convert {
  import opened Common
  import opened Decimal

  const MinInt64: int := -0x8000_0000_0000_0000
  const MaxInt64: int := 0x7FFF_FFFF_FFFF_FFFF
  const TwoTo64: int := 0x1_0000_0000_0000_0000

  predicate InInt64(i: int) {
    MinInt64 <= i <= MaxInt64
  }

  /** Two's-complement wrap-around of a signed 64-bit addition's exact result: the 64-bit value
      that differs from `x` by a multiple of 2^64 (`Wrap64Congruent`). */
  function Wrap64(x: int): (r: int)
    ensures InInt64(r)
    ensures InInt64(x) ==> r == x
    decreases if x < MinInt64 then MinInt64 - x else if x > MaxInt64 then x - MaxInt64 else 0
  {
    if x < MinInt64 then Wrap64(x + TwoTo64)
    else if x > MaxInt64 then Wrap64(x - TwoTo64)
    else x
  }

  /** The wrapped value is congruent to the exact one modulo 2^64, and it is the only signed
      64-bit value that is. */
  lemma Wrap64Congruent(x: int)
    ensures (Wrap64(x) - x) % TwoTo64 == 0
    ensures forall y :: InInt64(y) && (y - x) % TwoTo64 == 0 ==> y == Wrap64(x)
  {
    var k := Wrap64Offset(x);
    MultipleMod(k);
    forall y | InInt64(y) && (y - x) % TwoTo64 == 0 ensures y == Wrap64(x) {
      var q := (y - x) / TwoTo64;
      assert y - x == q * TwoTo64;
      SmallMultiple(q - k);
    }
  }

  /** `Wrap64` moves its argument by a whole number of 2^64 steps. */
  lemma {:induction false} Wrap64Offset(x: int) returns (k: int)
    ensures Wrap64(x) == x + k * TwoTo64
    decreases if x < MinInt64 then MinInt64 - x else if x > MaxInt64 then x - MaxInt64 else 0
  {
    if x < MinInt64 {
      var k' := Wrap64Offset(x + TwoTo64);
      k := k' + 1;
    } else if x > MaxInt64 {
      var k' := Wrap64Offset(x - TwoTo64);
      k := k' - 1;
    } else {
      k := 0;
    }
  }

  lemma MultipleMod(k: int)
    ensures (k * TwoTo64) % TwoTo64 == 0
  {
  }

  /** The only multiple of 2^64 strictly between -2^64 and 2^64 is zero. */
  lemma SmallMultiple(k: int)
    requires -TwoTo64 < k * TwoTo64 < TwoTo64
    ensures k == 0
  {
  }

  /** The position of the first `c` in `s`, if there is one. */
  function IndexOf(s: string, c: char): (r: Option<nat>)
    ensures r.None? <==> c !in s
    ensures r.Some? ==> r.value < |s| && s[r.value] == c && c !in s[..r.value]
    decreases |s|
  {
    if |s| == 0 then None
    else if s[0] == c then Some(0)
    else
      match IndexOf(s[1..], c)
      case None => None
      case Some(i) =>
        assert s[..i + 1] == [s[0]] + s[1..][..i];
        Some(i + 1)
  }

  /** `DecimalsNumber`, applied to the shortest rendering `s` of the float: the length of the
      second piece of `s` split at '.', or 0 when there is no '.'. */
  function DecimalsNumber(s: string): nat
  {
    match IndexOf(s, '.')
    case None => 0
    case Some(i) => PieceLength(s[i + 1..])
  }

  /** The length of the first piece of `rest` split at '.'. */
  function PieceLength(rest: string): nat
  {
    match IndexOf(rest, '.')
    case None => |rest|
    case Some(j) => j
  }

  /** Without a '.' the count is 0; otherwise it counts the characters that follow the first '.'
      up to the next '.' or the end. */
  lemma DecimalsNumberSpec(s: string)
    ensures '.' !in s ==> DecimalsNumber(s) == 0
    ensures '.' in s ==>
      (exists i :: 0 <= i < |s| && s[i] == '.' && '.' !in s[..i]
        && var n := DecimalsNumber(s);
        i + 1 + n <= |s| && '.' !in s[i + 1..i + 1 + n] && (i + 1 + n == |s| || s[i + 1 + n] == '.'))
  {
    if '.' in s {
      var i := IndexOf(s, '.').value;
      var rest := s[i + 1..];
      match IndexOf(rest, '.')
      case None =>
        assert s[i + 1..i + 1 + |rest|] == rest;
      case Some(j) =>
        assert s[i + 1..i + 1 + j] == rest[..j];
    }
  }

  /** The pieces of a float's shortest decimal rendering: a sign, the integer digits and the
      fraction digits. */
  datatype Parts = Parts(negative: bool, whole: string, frac: string)

  /** What a shortest rendering looks like: a canonical integer part and a fraction without a
      trailing zero (an integral value has no fraction and no '.'). */
  predicate WellFormed(p: Parts) {
    IsCanonical(p.whole) && AllDigits(p.frac) && (|p.frac| > 0 ==> p.frac[|p.frac| - 1] != '0')
  }

  function Render(p: Parts): string {
    (if p.negative then "-" else "") + p.whole + (if |p.frac| == 0 then "" else "." + p.frac)
  }

  /** The unsigned text split at its first '.', if any. */
  function Split(u: string): Parts {
    match IndexOf(u, '.')
    case None => Parts(false, u, "")
    case Some(i) => Parts(false, u[..i], u[i + 1..])
  }

  function Parse(s: string): Parts {
    var negative := |s| > 0 && s[0] == '-';
    Split(if negative then s[1..] else s).(negative := negative)
  }

  /** `s` is the shortest 'f'-format rendering of some finite float. */
  predicate IsRendering(s: string) {
    WellFormed(Parse(s)) && Render(Parse(s)) == s
  }

  lemma NoDotInDigits(s: string)
    requires AllDigits(s)
    ensures '.' !in s
  {
  }

  /** The first occurrence is the one with no earlier occurrence. */
  lemma IndexOfAt(s: string, c: char, i: nat)
    requires i < |s| && s[i] == c && c !in s[..i]
    ensures IndexOf(s, c) == Some(i)
  {
  }

  /** Splitting the unsigned rendering at its '.' gives back the integer and fraction digits. */
  lemma SplitBody(p: Parts)
    requires WellFormed(p)
    ensures Split(Render(p.(negative := false))) == p.(negative := false)
  {
    NoDotInDigits(p.whole);
    var body := Render(p.(negative := false));
    if |p.frac| > 0 {
      var i := |p.whole|;
      assert body == p.whole + "." + p.frac;
      assert body[i] == '.' && body[..i] == p.whole && body[i + 1..] == p.frac;
      IndexOfAt(body, '.', i);
    } else {
      assert body == p.whole;
    }
  }

  lemma RenderSign(p: Parts)
    requires WellFormed(p)
    ensures var s := Render(p); var body := Render(p.(negative := false));
      (|s| > 0 && s[0] == '-' <==> p.negative) && (if p.negative then s[1..] else s) == body
  {
    var body := Render(p.(negative := false));
    assert body[0] == p.whole[0];
    if p.negative {
      assert Render(p) == "-" + body;
    } else {
      assert Render(p) == body;
    }
  }

  /** Parsing inverts rendering, so the renderings are exactly the rendered well-formed parts. */
  lemma ParseRender(p: Parts)
    requires WellFormed(p)
    ensures Parse(Render(p)) == p
    ensures IsRendering(Render(p))
  {
    RenderSign(p);
    SplitBody(p);
  }

  /** The rendering of well-formed parts has as many decimals as fraction digits. */
  lemma DecimalsOfRender(p: Parts)
    requires WellFormed(p)
    ensures DecimalsNumber(Render(p)) == |p.frac|
  {
    var sign := if p.negative then "-" else "";
    if |p.frac| > 0 {
      assert Render(p) == sign + p.whole + "." + p.frac;
      DigitsDotDecimals(sign, p.whole, p.frac);
    } else {
      NoDotInDigits(p.whole);
      assert Render(p) == sign + p.whole;
      assert '.' !in Render(p);
    }
  }

  /** On a rendering, `DecimalsNumber` is the number of fraction digits. */
  lemma DecimalsOfRendering(s: string)
    requires IsRendering(s)
    ensures DecimalsNumber(s) == |Parse(s).frac|
  {
    DecimalsOfRender(Parse(s));
  }

  /** Text before the first '.' does not affect `DecimalsNumber`: neither a sign nor the
      integer digits matter. */
  lemma DecimalsIgnorePrefix(a: string, s: string)
    requires '.' !in a
    ensures DecimalsNumber(a + s) == DecimalsNumber(s)
  {
    if '.' in s {
      DecimalsShift(a, s, IndexOf(s, '.').value);
    } else {
      NoDotConcat(a, s);
    }
  }

  /** With a dot-free prefix, the first '.' moves by the prefix's length and what follows it is
      the same. */
  lemma DecimalsShift(a: string, s: string, i: nat)
    requires '.' !in a && IndexOf(s, '.') == Some(i)
    ensures DecimalsNumber(a + s) == DecimalsNumber(s)
  {
    var t := a + s;
    assert t[|a| + i] == '.';
    assert t[..|a| + i] == a + s[..i];
    IndexOfAt(t, '.', |a| + i);
    assert t[|a| + i + 1..] == s[i + 1..];
    assert DecimalsNumber(t) == PieceLength(s[i + 1..]);
  }

  lemma NoDotConcat(a: string, s: string)
    requires '.' !in a && '.' !in s
    ensures '.' !in a + s
  {
    var t := a + s;
    forall k | 0 <= k < |t| ensures t[k] != '.' {
      if k < |a| { assert t[k] == a[k]; } else { assert t[k] == s[k - |a|]; }
    }
  }

  /** Right after a first '.', the count is the length of a dot-free remainder. */
  lemma DecimalsOfFraction(f: string)
    requires '.' !in f
    ensures DecimalsNumber("." + f) == |f|
  {
    assert ("." + f)[0] == '.';
    assert ("." + f)[1..] == f;
  }

  lemma DecimalsZero()
    ensures DecimalsNumber("0") == 0
  {
    assert '.' !in "0";
  }

  lemma DecimalsIntegral()
    ensures DecimalsNumber("123") == 0
  {
    assert '.' !in "123";
  }

  lemma DecimalsOneDecimal()
    ensures DecimalsNumber("144.2") == 1
  {
    assert "144.2" == "144" + ("." + "2");
    assert '.' !in "144" && '.' !in "2";
    DecimalsIgnorePrefix("144", "." + "2");
    DecimalsOfFraction("2");
  }

  lemma DecimalsNineDecimals()
    ensures DecimalsNumber("1.123456789") == 9
  {
    assert "1.123456789" == "1" + ("." + "123456789");
    assert '.' !in "1" && '.' !in "123456789";
    DecimalsIgnorePrefix("1", "." + "123456789");
    DecimalsOfFraction("123456789");
  }

  lemma DecimalsFiveDecimals()
    ensures DecimalsNumber("3.14159") == 5
  {
    assert "3.14159" == "3" + ("." + "14159");
    assert '.' !in "3" && '.' !in "14159";
    DecimalsIgnorePrefix("3", "." + "14159");
    DecimalsOfFraction("14159");
  }

  lemma DecimalsNegativeIntegral()
    ensures DecimalsNumber("-1250") == 0
  {
    assert '.' !in "-1250";
  }

  lemma DecimalsNegativeThreeDecimals()
    ensures DecimalsNumber("-252123.123") == 3
  {
    assert "-252123.123" == "-252123" + ("." + "123");
    assert '.' !in "-252123" && '.' !in "123";
    DecimalsIgnorePrefix("-252123", "." + "123");
    DecimalsOfFraction("123");
  }

  /** The cases the legacy package's tests check, each float given by its shortest rendering:
      0, 123.0, 144.2, 1.123456789, 3.1415900000, -1250 and -252123.123. */
  lemma DecimalsNumberVectors()
    ensures DecimalsNumber("0") == 0
    ensures DecimalsNumber("123") == 0
    ensures DecimalsNumber("144.2") == 1
    ensures DecimalsNumber("1.123456789") == 9
    ensures DecimalsNumber("3.14159") == 5
    ensures DecimalsNumber("-1250") == 0
    ensures DecimalsNumber("-252123.123") == 3
  {
    DecimalsZero();
    DecimalsIntegral();
    DecimalsOneDecimal();
    DecimalsNineDecimals();
    DecimalsFiveDecimals();
    DecimalsNegativeIntegral();
    DecimalsNegativeThreeDecimals();
  }

  /** `strings.Replace(s, ".", "", 1)`: the first '.' deleted; putting it back restores `s`. */
  function DeleteFirstDot(s: string): (r: string)
    ensures '.' !in s ==> r == s
    ensures '.' in s ==>
      (|r| == |s| - 1 && s == r[..IndexOf(s, '.').value] + "." + r[IndexOf(s, '.').value..])
  {
    match IndexOf(s, '.')
    case None => s
    case Some(i) =>
      var r := s[..i] + s[i + 1..];
      assert r[..i] == s[..i] && r[i..] == s[i + 1..];
      r
  }

  /** `strconv.ParseInt(t, 10, 64)`: an optional sign, then one or more decimal digits (leading
      zeros allowed), whose value must fit a signed 64-bit integer; anything else is an error. */
  function ParseInt(t: string): (r: Option<int>)
    ensures r.Some? ==> InInt64(r.value)
    ensures (|t| == 0 || !(IsDigit(t[0]) || t[0] == '+' || t[0] == '-')) ==> r.None?
  {
    var negative := |t| > 0 && t[0] == '-';
    var digits := if |t| > 0 && (t[0] == '+' || t[0] == '-') then t[1..] else t;
    if |digits| == 0 || !AllDigits(digits) then None
    else
      var v: int := if negative then -(Value(digits) as int) else Value(digits);
      if InInt64(v) then Some(v) else None
  }

  /** A sign and a non-empty digit string parse to the signed value of the digits, when in range. */
  lemma ParseIntSigned(negative: bool, ds: string)
    requires |ds| > 0 && AllDigits(ds)
    ensures var v: int := if negative then -(Value(ds) as int) else Value(ds);
      ParseInt((if negative then "-" else "") + ds) == if InInt64(v) then Some(v) else None
  {
    var t := (if negative then "-" else "") + ds;
    if negative {
      assert t[0] == '-' && t[1..] == ds;
    } else {
      assert t == ds;
      assert IsDigit(ds[0]);
    }
  }

  /** `strconv.FormatInt(i, 10)`: the canonical digits of |i|, after a '-' when i is negative. */
  function FormatInt(i: int): (d: string)
    ensures |d| >= 1 && (d[0] == '-' <==> i < 0)
    ensures i >= 0 ==> IsCanonical(d) && Value(d) == i
    ensures i < 0 ==> IsCanonical(d[1..]) && Value(d[1..]) == -i
    ensures |d| < 2 <==> 0 <= i <= 9
  {
    if i < 0 then
      var m := FormatNat(-i);
      assert ("-" + m)[1..] == m;
      "-" + m
    else
      FormatNat(i)
  }

  /** Formatting and parsing are inverse on signed 64-bit integers. */
  lemma ParseIntFormatInt(i: int)
    requires InInt64(i)
    ensures ParseInt(FormatInt(i)) == Some(i)
  {
    var d := FormatInt(i);
    if i < 0 {
      assert d == "-" + d[1..];
      ParseIntSigned(true, d[1..]);
    } else {
      ParseIntSigned(false, d);
    }
  }

  /** An amount `AddTransaction` accepts: a float's rendering with at most two decimals. */
  predicate IsCentAmount(s: string) {
    IsRendering(s) && DecimalsNumber(s) <= 2
  }

  lemma CentAmountFraction(s: string)
    requires IsCentAmount(s)
    ensures |Parse(s).frac| <= 2
  {
    DecimalsOfRendering(s);
  }

  /** The hundredths spelled by at most two fraction digits. */
  function FracCents(f: string): nat
    requires AllDigits(f) && |f| <= 2
  {
    if |f| == 0 then 0
    else if |f| == 1 then DigitVal(f[0]) * 10
    else DigitVal(f[0]) * 10 + DigitVal(f[1])
  }

  /** The exact value of an amount, in cents: the reference `ToCents` is measured against. */
  function AmountCents(s: string): int
    requires IsCentAmount(s)
  {
    CentAmountFraction(s);
    var p := Parse(s);
    var m := Value(p.whole) * 100 + FracCents(p.frac);
    if p.negative then -m else m
  }

  /** The fraction padded with zeros to two digits. */
  function Pad2(f: string): (r: string)
    requires AllDigits(f) && |f| <= 2
    ensures |r| == 2 && AllDigits(r) && r[..|f|] == f
  {
    if |f| == 0 then "00" else if |f| == 1 then f + "0" else f
  }

  /** `strconv.FormatFloat(f, 'f', 2, 64)` for a float whose shortest rendering has at most two
      decimals: the same digits with the fraction padded to two places. The text has exactly two
      decimals, and reading it back as cents gives the amount's exact cents. */
  function FixedTwo(s: string): (t: string)
    requires IsCentAmount(s)
    ensures DecimalsNumber(t) == 2
    ensures CentsOfFixed(t) == if InInt64(AmountCents(s)) then Some(AmountCents(s)) else None
  {
    CentAmountFraction(s);
    var p := Parse(s);
    DigitsDotDecimals(if p.negative then "-" else "", p.whole, Pad2(p.frac));
    FixedValue(p.negative, p.whole, p.frac);
    assert AmountCents(s) == SignedCents(p.negative, p.whole, p.frac);
    FixedText(p.negative, p.whole, p.frac)
  }

  /** The signed value in cents of integer digits and at most two fraction digits. */
  function SignedCents(negative: bool, w: string, f: string): int
    requires AllDigits(w) && AllDigits(f) && |f| <= 2
  {
    var m := Value(w) * 100 + FracCents(f);
    if negative then -m else m
  }

  /** A sign, integer digits, a '.' and the fraction padded to two digits. */
  function FixedText(negative: bool, w: string, f: string): string
    requires AllDigits(f) && |f| <= 2
  {
    (if negative then "-" else "") + w + "." + Pad2(f)
  }

  /** The two-decimal text of a sign, integer digits and at most two fraction digits reads back
      as the signed value in cents. */
  lemma FixedValue(negative: bool, w: string, f: string)
    requires AllDigits(w) && AllDigits(f) && |f| <= 2
    ensures CentsOfFixed(FixedText(negative, w, f)) ==
      if InInt64(SignedCents(negative, w, f)) then Some(SignedCents(negative, w, f)) else None
  {
    var sign := if negative then "-" else "";
    var ds := w + Pad2(f);
    PadValue(w, f);
    assert FixedText(negative, w, f) == sign + w + "." + Pad2(f);
    SignedDigitsDot(sign, w, Pad2(f));
    assert CentsOfFixed(FixedText(negative, w, f)) == ParseInt(sign + ds);
    ParseIntSigned(negative, ds);
    assert SignedCents(negative, w, f) == if negative then -(Value(ds) as int) else Value(ds);
  }

  /** The tail of `ToCents`: delete the first '.', then parse a signed 64-bit integer. */
  function CentsOfFixed(t: string): Option<int>
  {
    ParseInt(DeleteFirstDot(t))
  }

  lemma ValueTwoDigits(acc: nat, f: string)
    requires |f| == 2 && AllDigits(f)
    ensures ValueFrom(acc, f) == acc * 100 + DigitVal(f[0]) * 10 + DigitVal(f[1])
  {
    var g := f[1..];
    assert g[0] == f[1] && g[1..] == [];
    assert ValueFrom(acc, f) == ValueFrom(acc * 10 + DigitVal(f[0]), g);
    assert ValueFrom(acc * 10 + DigitVal(f[0]), g) == ValueFrom((acc * 10 + DigitVal(f[0])) * 10 + DigitVal(f[1]), []);
  }

  lemma PadValue(w: string, f: string)
    requires AllDigits(w) && AllDigits(f) && |f| <= 2
    ensures AllDigits(w + Pad2(f))
    ensures Value(w + Pad2(f)) == Value(w) * 100 + FracCents(f)
  {
    ValueFromAppend(0, w, Pad2(f));
    ValueTwoDigits(Value(w), Pad2(f));
    if |f| == 1 {
      assert Pad2(f)[0] == f[0];
    } else if |f| == 2 {
      assert Pad2(f) == f;
    }
  }

  /** Deleting the first '.' of a text whose only '.' follows a dot-free prefix. */
  lemma DeleteDotAfter(a: string, b: string)
    requires '.' !in a
    ensures DeleteFirstDot(a + "." + b) == a + b
  {
    var t := a + "." + b;
    assert t[|a|] == '.' && t[..|a|] == a && t[|a| + 1..] == b;
    IndexOfAt(t, '.', |a|);
  }

  /** `ToCents` on an amount with at most two decimals: its exact value in cents, or an error
      when that value does not fit a signed 64-bit integer. */
  function ToCents(s: string): (r: Option<int>)
    requires IsCentAmount(s)
    ensures r == if InInt64(AmountCents(s)) then Some(AmountCents(s)) else None
  {
    CentsOfFixed(FixedTwo(s))
  }

  /** `k` zero digits. */
  function Zeros(k: nat): string {
    if k == 0 then "" else "0" + Zeros(k - 1)
  }

  /** Leading zeros add nothing to a numeral's value. */
  lemma {:induction false} ZerosValue(k: nat, s: string)
    requires AllDigits(s)
    ensures AllDigits(Zeros(k) + s) && Value(Zeros(k) + s) == Value(s)
  {
    if k > 0 {
      ZerosValue(k - 1, s);
      var t := Zeros(k - 1) + s;
      assert Zeros(k) + s == "0" + t;
      DigitsAppend("0", t);
      assert ("0" + t)[0] == '0' && ("0" + t)[1..] == t;
      assert ValueFrom(0, "0" + t) == ValueFrom(0, t);
      assert Value(Zeros(k) + s) == Value(t);
    } else {
      assert Zeros(k) + s == s;
    }
  }

  /** A digit string padded with leading zeros to at least three digits. */
  function PadThree(d: string): string {
    if |d| >= 3 then d else Zeros(3 - |d|) + d
  }

  /** `strconv.FormatFloat(f, 'f', 2, 64)` for the float a control sum of `c` cents is held as:
      the sign, then the digits of |c| with at least three of them and a '.' before the last two
      (5 cents is "0.05", 12345 cents is "123.45"). The text has exactly two decimals, and
      reading it back as cents gives `c` again, or an error when `c` does not fit 64 bits. */
  function TwoPlaces(c: int): (t: string)
    ensures DecimalsNumber(t) == 2
    ensures CentsOfFixed(t) == if InInt64(c) then Some(c) else None
  {
    var m: nat := if c < 0 then -c else c;
    var d := PadThree(FormatNat(m));
    PadThreeValue(FormatNat(m));
    var sign := if c < 0 then "-" else "";
    DeleteInsertedDot(sign, d);
    InsertedDotDecimals(sign, d);
    ParseIntSigned(c < 0, d);
    sign + InsertDot(d)
  }

  lemma PadThreeValue(n: string)
    requires AllDigits(n)
    ensures |PadThree(n)| >= 3 && AllDigits(PadThree(n)) && Value(PadThree(n)) == Value(n)
  {
    if |n| < 3 {
      ZerosValue(3 - |n|, n);
    }
  }

  /** The '.' that `InsertDot` puts into a signed digit string has two digits after it. */
  lemma InsertedDotDecimals(sign: string, d: string)
    requires sign == "" || sign == "-"
    requires AllDigits(d) && |d| >= 2
    ensures DecimalsNumber(sign + InsertDot(d)) == 2
  {
    var w := d[..|d| - 2];
    var f := d[|d| - 2..];
    assert AllDigits(w) by { forall k | 0 <= k < |w| ensures IsDigit(w[k]) { assert w[k] == d[k]; } }
    assert AllDigits(f) by { forall k | 0 <= k < |f| ensures IsDigit(f[k]) { assert f[k] == d[|d| - 2 + k]; } }
    assert sign + InsertDot(d) == sign + w + "." + f;
    DigitsDotDecimals(sign, w, f);
  }

  /** Deleting the '.' that `InsertDot` put into a signed digit string gives the string back. */
  lemma DeleteInsertedDot(sign: string, d: string)
    requires sign == "" || sign == "-"
    requires AllDigits(d) && |d| >= 2
    ensures DeleteFirstDot(sign + InsertDot(d)) == sign + d
  {
    var w := d[..|d| - 2];
    var f := d[|d| - 2..];
    assert AllDigits(w) by { forall k | 0 <= k < |w| ensures IsDigit(w[k]) { assert w[k] == d[k]; } }
    assert w + f == d;
    assert sign + InsertDot(d) == sign + w + "." + f;
    SignedDigitsDot(sign, w, f);
  }

  lemma SignedDigitsDot(sign: string, w: string, f: string)
    requires sign == "" || sign == "-"
    requires AllDigits(w)
    ensures DeleteFirstDot(sign + w + "." + f) == sign + (w + f)
  {
    NoDotInDigits(w);
    assert '.' !in sign + w;
    DeleteDotAfter(sign + w, f);
  }

  /** The text after an optional leading sign. */
  function Unsigned(t: string): string {
    if |t| > 0 && (t[0] == '+' || t[0] == '-') then t[1..] else t
  }

  /** Digits with at most one '.', and at least one digit. */
  predicate IsMantissa(u: string) {
    (exists k :: 0 <= k < |u| && IsDigit(u[k]))
    && (forall k :: 0 <= k < |u| ==> IsDigit(u[k]) || u[k] == '.')
    && (forall k, l :: 0 <= k < l < |u| && u[k] == '.' ==> u[l] != '.')
  }

  /** The part of `strconv.ParseFloat`'s syntax the euro text can take: an optional sign, then
      digits with at most one '.', and at least one digit. */
  predicate IsFloatLiteral(t: string) {
    IsMantissa(Unsigned(t))
  }

  /** A '.' put before the last two characters. */
  function InsertDot(d: string): string
    requires |d| >= 2
  {
    d[..|d| - 2] + "." + d[|d| - 2..]
  }

  lemma DigitsDotMantissa(a: string, b: string)
    requires AllDigits(a) && AllDigits(b) && |b| > 0
    ensures IsMantissa(a + "." + b)
  {
    var u := a + "." + b;
    assert IsDigit(u[|a| + 1]) by { assert u[|a| + 1] == b[0]; }
    forall k | 0 <= k < |u| && k != |a| ensures IsDigit(u[k]) {
      if k < |a| { assert u[k] == a[k]; } else { assert u[k] == b[k - |a| - 1]; }
    }
    assert forall k, l :: 0 <= k < l < |u| && u[k] == '.' ==> u[l] != '.';
  }

  lemma SignedUnsigned(sign: string, u: string)
    requires sign == "" || sign == "-"
    requires |u| > 0 && u[0] != '+' && u[0] != '-'
    ensures Unsigned(sign + u) == u
  {
    if sign == "" { assert sign + u == u; } else { assert (sign + u)[1..] == u; }
  }

  lemma DigitsDotIsLiteral(sign: string, a: string, b: string)
    requires sign == "" || sign == "-"
    requires AllDigits(a) && AllDigits(b) && |b| > 0
    ensures IsFloatLiteral(sign + a + "." + b)
  {
    var u := a + "." + b;
    assert sign + a + "." + b == sign + u;
    assert u[0] != '+' && u[0] != '-' by {
      if |a| > 0 { assert u[0] == a[0]; } else { assert u[0] == '.'; }
    }
    SignedUnsigned(sign, u);
    DigitsDotMantissa(a, b);
  }

  lemma DigitsDotDecimals(sign: string, a: string, b: string)
    requires sign == "" || sign == "-"
    requires AllDigits(a) && AllDigits(b)
    ensures DecimalsNumber(sign + a + "." + b) == |b|
  {
    NoDotInDigits(a);
    NoDotInDigits(b);
    assert '.' !in sign + a;
    assert sign + a + "." + b == (sign + a) + ("." + b);
    DecimalsIgnorePrefix(sign + a, "." + b);
    DecimalsOfFraction(b);
  }

  /** Digits with one '.' among them, after an optional '-', are a float literal with as many
      decimals as digits follow the '.'. */
  lemma DigitsDotLiteral(sign: string, a: string, b: string)
    requires sign == "" || sign == "-"
    requires AllDigits(a) && AllDigits(b) && |b| > 0
    ensures IsFloatLiteral(sign + a + "." + b)
    ensures DecimalsNumber(sign + a + "." + b) == |b|
    ensures DeleteFirstDot(sign + a + "." + b) == sign + (a + b)
  {
    DigitsDotIsLiteral(sign, a, b);
    DigitsDotDecimals(sign, a, b);
    SignedDigitsDot(sign, a, b);
  }

  /** For |i| >= 10 the euro text is a float literal with exactly two decimals, and deleting its
      '.' gives back the text of `i`. */
  lemma EuroText(i: int)
    requires i <= -10 || i >= 10
    ensures |FormatInt(i)| >= 2
    ensures var t := InsertDot(FormatInt(i));
      IsFloatLiteral(t) && DecimalsNumber(t) == 2 && DeleteFirstDot(t) == FormatInt(i)
  {
    var d := FormatInt(i);
    if i >= 10 {
      var a := d[..|d| - 2];
      var b := d[|d| - 2..];
      assert a + b == d;
      assert AllDigits(a) && AllDigits(b) by {
        forall k | 0 <= k < |a| ensures IsDigit(a[k]) { assert a[k] == d[k]; }
        forall k | 0 <= k < |b| ensures IsDigit(b[k]) { assert b[k] == d[|d| - 2 + k]; }
      }
      assert "" + a + "." + b == InsertDot(d);
      DigitsDotLiteral("", a, b);
    } else {
      var f := d[1..];
      assert d == "-" + f;
      var a := f[..|f| - 2];
      var b := f[|f| - 2..];
      assert a + b == f;
      assert AllDigits(a) && AllDigits(b) by {
        forall k | 0 <= k < |a| ensures IsDigit(a[k]) { assert a[k] == f[k]; }
        forall k | 0 <= k < |b| ensures IsDigit(b[k]) { assert b[k] == f[|f| - 2 + k]; }
      }
      assert d[..|d| - 2] == "-" + a && d[|d| - 2..] == b;
      assert "-" + a + "." + b == InsertDot(d);
      DigitsDotLiteral("-", a, b);
    }
  }

  /** For -9..-1 the text is "-k", so the '.' lands before the sign: ".-k" is no float literal. */
  lemma EuroTextNegativeDigit(i: int)
    requires -9 <= i <= -1
    ensures |FormatInt(i)| == 2 && !IsFloatLiteral(InsertDot(FormatInt(i)))
  {
    var d := FormatInt(i);
    assert |d| == 2 && d[0] == '-';
    var t := InsertDot(d);
    assert t == "." + d by { assert d[..0] == "" && d[0..] == d; }
    assert Unsigned(t) == t;
    assert t[1] == '-';
  }

  /** `ToEuro`: the text of `i` with a '.' before its last two characters, read back by
      `strconv.ParseFloat`. A text shorter than two characters makes the slice expression fail,
      a run-time panic in the source, which is represented here by the error `CumulusOutOfRange`;
      the text of -9..-1 becomes ".-k", which does not parse. */
  function ToEuro(i: int): Result<string, Error>
    requires InInt64(i)
  {
    var d := FormatInt(i);
    if |d| < 2 then Failure(CumulusOutOfRange)
    else if IsFloatLiteral(InsertDot(d)) then Success(InsertDot(d))
    else Failure(CumulusNotConvertible)
  }

  /** `ToEuro` fails exactly on 0..9 (the panic) and on -9..-1 (the unparsable text); otherwise its
      text has two decimals, and deleting its '.' gives back the text of `i`. */
  lemma ToEuroSpec(i: int)
    requires InInt64(i)
    ensures ToEuro(i) == Failure(CumulusOutOfRange) <==> 0 <= i <= 9
    ensures ToEuro(i) == Failure(CumulusNotConvertible) <==> -9 <= i <= -1
    ensures ToEuro(i).Success? ==>
      DecimalsNumber(ToEuro(i).value) == 2 && DeleteFirstDot(ToEuro(i).value) == FormatInt(i)
  {
    if i <= -10 || i >= 10 {
      EuroText(i);
    } else if i < 0 {
      EuroTextNegativeDigit(i);
    }
  }

  /** The euro text of an amount of cents is read back by `ToCents` as the same cents: the
      round trip holds for every signed 64-bit `i` with |i| >= 10. */
  lemma EuroRoundTrip(i: int)
    requires InInt64(i) && (i <= -10 || i >= 10)
    ensures ToEuro(i).Success? && CentsOfFixed(ToEuro(i).value) == Some(i)
  {
    ToEuroSpec(i);
    ParseIntFormatInt(i);
  }
}
