/** The ISO 13616 IBAN check digit test (ISO/IEC 7064 MOD 97-10) as `lib.IsValid` computes it,
    with a reference definition, the streaming remainder variant and the known test vectors. */
module Iban {
  import opened Common
  import opened Decimal

  const MinLength: nat := 4
  const MaxLength: nat := 34

  predicate IsUpper(c: char) {
    'A' <= c <= 'Z'
  }

  /** The characters the check tolerates: upper-case letters, digits and the space. */
  predicate Allowed(c: char) {
    IsUpper(c) || IsDigit(c) || c == ' '
  }

  predicate AllAllowed(s: string) {
    forall i :: 0 <= i < |s| ==> Allowed(s[i])
  }

  /** The first four characters (country code and check digits) moved to the end. */
  function Rotate(s: string): (r: string)
    requires |s| >= 4
    ensures |r| == |s|
    ensures r[|s| - 4..] == s[..4] && r[..|s| - 4] == s[4..]
  {
    s[4..] + s[..4]
  }

  /** A letter's number: 'A' is 10, ..., 'Z' is 35. */
  function LetterValue(c: char): (v: nat)
    requires IsUpper(c)
    ensures 10 <= v <= 35
  {
    c as int - 'A' as int + 10
  }

  /** The numeral digits one character contributes: two for a letter, one for a digit, none otherwise. */
  function DigitsOf(c: char): (ds: string)
    ensures AllDigits(ds)
  {
    if IsUpper(c) then [DigitChar(LetterValue(c) / 10), DigitChar(LetterValue(c) % 10)]
    else if IsDigit(c) then [c]
    else []
  }

  /** The numeral string of a character string: each character's digits, left to right. */
  function Expand(s: string): (ds: string)
    ensures AllDigits(ds)
  {
    if |s| == 0 then [] else
      var ds := DigitsOf(s[0]) + Expand(s[1..]);
      DigitsAppend(DigitsOf(s[0]), Expand(s[1..]));
      ds
  }

  /** The reference statement of the check: bounded length, only tolerated characters, and the
      numeral of the rotated string leaves remainder 1 modulo 97. */
  predicate ValidByDefinition(iban: string) {
    && MinLength <= |iban| <= MaxLength
    && AllAllowed(iban)
    && Value(Expand(Rotate(iban))) % 97 == 1
  }

  /** One turn of the source's loop: the big-integer accumulator after character `c`, or None
      when `c` is not tolerated (the loop returns false there). */
  function Step(acc: nat, c: char): Option<nat> {
    if IsUpper(c) then
      var ch := LetterValue(c);
      Some((acc * 10 + ch / 10) * 10 + ch % 10)
    else if IsDigit(c) then Some(acc * 10 + DigitVal(c))
    else if c == ' ' then Some(acc)
    else None
  }

  lemma SuffixAllowed(s: string, k: nat)
    requires k < |s|
    ensures AllAllowed(s[k..]) <==> Allowed(s[k]) && AllAllowed(s[k + 1..])
  {
    if Allowed(s[k]) && AllAllowed(s[k + 1..]) {
      forall i | 0 <= i < |s[k..]| ensures Allowed(s[k..][i]) {
        if i > 0 { assert s[k..][i] == s[k + 1..][i - 1]; }
      }
    }
    if AllAllowed(s[k..]) {
      assert s[k] == s[k..][0];
      var t := s[k + 1..];
      forall i | 0 <= i < |t| ensures Allowed(t[i]) {
        assert t[i] == s[k..][i + 1];
      }
    }
  }

  lemma ExpandSuffix(s: string, k: nat)
    requires k < |s|
    ensures Expand(s[k..]) == DigitsOf(s[k]) + Expand(s[k + 1..])
  {
    assert s[k..][0] == s[k];
    assert s[k..][1..] == s[k + 1..];
  }

  /** The horner value of a character's own digits is the accumulator after one turn of the loop. */
  lemma StepIsHorner(acc: nat, c: char)
    requires Allowed(c)
    ensures Step(acc, c).Some? && Step(acc, c).value == ValueFrom(acc, DigitsOf(c))
  {
    if IsUpper(c) {
      var ch := LetterValue(c);
      var ds := DigitsOf(c);
      assert ds[1..] == [DigitChar(ch % 10)] && ds[1..][1..] == [];
      calc {
        ValueFrom(acc, ds);
        ValueFrom(acc * 10 + ch / 10, ds[1..]);
        ValueFrom((acc * 10 + ch / 10) * 10 + ch % 10, ds[1..][1..]);
      }
    } else if IsDigit(c) {
      assert [c][1..] == [];
    }
  }

  /** The source's loop, character `k` onward, from accumulator `acc`: the big integer it ends with,
      or None as soon as a character is not tolerated. */
  function Accumulate(s: string, k: nat, acc: nat): Option<nat>
    requires k <= |s|
    decreases |s| - k
  {
    if k == |s| then Some(acc)
    else
      match Step(acc, s[k])
      case None => None
      case Some(next) => Accumulate(s, k + 1, next)
  }

  /** The loop fails exactly on an intolerable character, and otherwise appends the digits of
      every character to the accumulator. */
  lemma {:induction false} AccumulateIsHorner(s: string, k: nat, acc: nat)
    requires k <= |s|
    ensures Accumulate(s, k, acc).Some? <==> AllAllowed(s[k..])
    ensures Accumulate(s, k, acc).Some? ==> Accumulate(s, k, acc).value == ValueFrom(acc, Expand(s[k..]))
    decreases |s| - k
  {
    if k < |s| {
      SuffixAllowed(s, k);
      match Step(acc, s[k])
      case None =>
      case Some(next) =>
        AccumulateIsHorner(s, k + 1, next);
        StepIsHorner(acc, s[k]);
        ExpandSuffix(s, k);
        ValueFromAppend(acc, DigitsOf(s[k]), Expand(s[k + 1..]));
    }
  }

  /** Running the loop over a concatenation runs it over the first part, then over the second
      from the accumulator the first part left. */
  lemma {:induction false} AccumulateAppend(a: string, b: string, k: nat, acc: nat)
    requires k <= |a|
    ensures Accumulate(a + b, k, acc) ==
      match Accumulate(a, k, acc)
      case None => None
      case Some(m) => Accumulate(b, 0, m)
    decreases |a| - k
  {
    if k < |a| {
      assert (a + b)[k] == a[k];
      match Step(acc, a[k])
      case None =>
      case Some(next) => AccumulateAppend(a, b, k + 1, next);
    } else {
      AccumulateShift(a, b, 0, acc);
    }
  }

  /** Past the end of `a`, the loop over `a + b` is the loop over `b`. */
  lemma {:induction false} AccumulateShift(a: string, b: string, j: nat, acc: nat)
    requires j <= |b|
    ensures Accumulate(a + b, |a| + j, acc) == Accumulate(b, j, acc)
    decreases |b| - j
  {
    if j < |b| {
      assert (a + b)[|a| + j] == b[j];
      match Step(acc, b[j])
      case None =>
      case Some(next) => AccumulateShift(a, b, j + 1, next);
    }
  }

  lemma RotatePreservesAllowed(s: string)
    requires |s| >= 4
    ensures AllAllowed(Rotate(s)) <==> AllAllowed(s)
  {
    var r := Rotate(s);
    if AllAllowed(s) {
      forall i | 0 <= i < |r| ensures Allowed(r[i]) {
        if i < |s| - 4 { assert r[i] == s[i + 4]; } else { assert r[i] == s[i - (|s| - 4)]; }
      }
    }
    if AllAllowed(r) {
      forall i | 0 <= i < |s| ensures Allowed(s[i]) {
        if i < 4 { assert s[i] == r[i + |s| - 4]; } else { assert s[i] == r[i - 4]; }
      }
    }
  }

  /** `lib.IsValid`: false outside the length bounds; otherwise the loop over the rotated string,
      true iff the big integer it builds leaves remainder 1 modulo 97. */
  function IsValid(iban: string): bool
  {
    if |iban| < 4 || |iban| > 34 then false
    else
      match Accumulate(Rotate(iban), 0, 0)
      case None => false
      case Some(n) => n % 97 == 1
  }

  lemma IsValidMeaning(iban: string)
    ensures IsValid(iban) <==> ValidByDefinition(iban)
    ensures |iban| < MinLength || |iban| > MaxLength ==> !IsValid(iban)
    ensures (exists i :: 0 <= i < |iban| && !Allowed(iban[i])) ==> !IsValid(iban)
  {
    if MinLength <= |iban| <= MaxLength {
      RotatePreservesAllowed(iban);
      AccumulateIsHorner(Rotate(iban), 0, 0);
      assert Rotate(iban)[0..] == Rotate(iban);
    }
  }

  /** The verdict for a string of admissible length is read off the loop's big integer. */
  lemma IsValidFromLoop(iban: string, n: nat)
    requires MinLength <= |iban| <= MaxLength
    requires Accumulate(Rotate(iban), 0, 0) == Some(n)
    ensures IsValid(iban) <==> n % 97 == 1
  {
  }

  /** The running remainder `acc := (acc * 10 + d) % 97` over a digit string, left to right. */
  function Fold97(acc: nat, ds: string): nat
    requires AllDigits(ds)
    decreases |ds|
  {
    if |ds| == 0 then acc else Fold97((acc * 10 + DigitVal(ds[0])) % 97, ds[1..])
  }

  lemma ModStep(a: nat, d: nat)
    ensures ((a % 97) * 10 + d) % 97 == (a * 10 + d) % 97
  {
    var q := a / 97;
    assert a * 10 + d == 97 * (q * 10) + ((a % 97) * 10 + d);
  }

  /** Reducing modulo 97 at every digit gives the remainder of the whole big integer. */
  lemma {:induction false} Fold97IsRemainder(acc: nat, ds: string)
    requires AllDigits(ds)
    ensures Fold97(acc % 97, ds) == ValueFrom(acc, ds) % 97
    decreases |ds|
  {
    if |ds| == 0 {
    } else {
      var d := DigitVal(ds[0]);
      ModStep(acc, d);
      Fold97IsRemainder(acc * 10 + d, ds[1..]);
    }
  }

  lemma {:induction false} Fold97Append(acc: nat, a: string, b: string)
    requires AllDigits(a) && AllDigits(b)
    ensures AllDigits(a + b)
    ensures Fold97(acc, a + b) == Fold97(Fold97(acc, a), b)
    decreases |a|
  {
    ValueFromAppend(0, a, b);
    if |a| > 0 {
      assert (a + b)[0] == a[0];
      assert (a + b)[1..] == a[1..] + b;
      Fold97Append((acc * 10 + DigitVal(a[0])) % 97, a[1..], b);
    } else {
      assert a + b == b;
    }
  }

  /** One turn of the streaming loop: the remainder after character `c`. */
  function StepMod(acc: nat, c: char): nat
    requires Allowed(c)
  {
    if IsUpper(c) then
      var ch := LetterValue(c);
      ((acc * 10 + ch / 10) % 97 * 10 + ch % 10) % 97
    else if IsDigit(c) then (acc * 10 + DigitVal(c)) % 97
    else acc
  }

  lemma StepModIsFold(acc: nat, c: char)
    requires Allowed(c)
    ensures StepMod(acc, c) == Fold97(acc, DigitsOf(c))
  {
    if IsUpper(c) {
      var ch := LetterValue(c);
      var ds := DigitsOf(c);
      assert ds[1..] == [DigitChar(ch % 10)] && ds[1..][1..] == [];
      calc {
        Fold97(acc, ds);
        Fold97((acc * 10 + ch / 10) % 97, ds[1..]);
        Fold97(((acc * 10 + ch / 10) % 97 * 10 + ch % 10) % 97, ds[1..][1..]);
      }
    } else if IsDigit(c) {
      assert [c][1..] == [];
    }
  }

  lemma RejectedCharacter(iban: string, i: nat)
    requires MinLength <= |iban| <= MaxLength
    requires i < |iban| && !Allowed(Rotate(iban)[i])
    ensures !IsValid(iban)
  {
    RotatePreservesAllowed(iban);
    IsValidMeaning(iban);
  }

  /** One turn of the streaming loop keeps the remainder of the unread digits' fold. */
  lemma StreamStep(r: string, i: nat, acc: nat)
    requires i < |r| && Allowed(r[i]) && AllAllowed(r[..i])
    ensures AllAllowed(r[..i + 1])
    ensures Fold97(StepMod(acc, r[i]), Expand(r[i + 1..])) == Fold97(acc, Expand(r[i..]))
  {
    ExpandSuffix(r, i);
    Fold97Append(acc, DigitsOf(r[i]), Expand(r[i + 1..]));
    StepModIsFold(acc, r[i]);
    assert r[..i + 1] == r[..i] + [r[i]];
  }

  /** Before the first turn, the fold over every digit from zero is the remainder sought. */
  lemma StreamStart(r: string)
    ensures AllAllowed(r[..0])
    ensures Fold97(0, Expand(r[0..])) == Value(Expand(r)) % 97
  {
    Fold97IsRemainder(0, Expand(r));
    assert r[0..] == r;
  }

  /** One pass over `r` with the remainder kept below 97 at every digit: whether every character
      is tolerated and, if so, the remainder of the numeral of its digit expansion. */
  method Remainder97(r: string) returns (ok: bool, acc: nat)
    ensures ok <==> AllAllowed(r)
    ensures ok ==> acc == Value(Expand(r)) % 97
  {
    ghost var target := Value(Expand(r)) % 97;
    StreamStart(r);
    acc := 0;
    var i := 0;
    while i < |r|
      invariant 0 <= i <= |r|
      invariant AllAllowed(r[..i])
      invariant Fold97(acc, Expand(r[i..])) == target
    {
      if !Allowed(r[i]) {
        return false, acc;
      }
      StreamStep(r, i, acc);
      acc := StepMod(acc, r[i]);
      i := i + 1;
    }
    assert r[..i] == r && r[i..] == [];
    ok := true;
  }

  /** A variant that keeps the remainder below 97 at every digit instead of building a big
      integer; it gives the same verdict as `IsValid` on every string. */
  method CheckStreaming(iban: string) returns (ok: bool)
    ensures ok == IsValid(iban)
  {
    if |iban| < MinLength || |iban| > MaxLength {
      return false;
    }
    var allowed, acc := Remainder97(Rotate(iban));
    RotatePreservesAllowed(iban);
    IsValidMeaning(iban);
    ok := allowed && acc == 1;
  }

  lemma {:induction false} ExpandAppend(a: string, b: string)
    ensures Expand(a + b) == Expand(a) + Expand(b)
    decreases |a|
  {
    if |a| > 0 {
      assert (a + b)[0] == a[0];
      assert (a + b)[1..] == a[1..] + b;
      ExpandAppend(a[1..], b);
    } else {
      assert a + b == b;
    }
  }

  lemma AllowedSpaceInsert(s: string, k: nat)
    requires k <= |s|
    ensures AllAllowed(s[..k] + " " + s[k..]) <==> AllAllowed(s)
  {
    var t := s[..k] + " " + s[k..];
    if AllAllowed(s) {
      forall i | 0 <= i < |t| ensures Allowed(t[i]) {
        if i < k { assert t[i] == s[i]; } else if i > k { assert t[i] == s[i - 1]; }
      }
    }
    if AllAllowed(t) {
      forall i | 0 <= i < |s| ensures Allowed(s[i]) {
        if i < k { assert s[i] == t[i]; } else { assert s[i] == t[i + 1]; }
      }
    }
  }

  lemma ExpandSpaceInsert(a: string, b: string, c: string)
    ensures Expand(a + " " + b + c) == Expand(a + b + c)
  {
    var x := a + " ";
    assert Expand(" ") == [] by { assert " "[1..] == []; }
    ExpandAppend(a, " ");
    assert Expand(x) == Expand(a);
    ExpandAppend(x + b, c);
    ExpandAppend(x, b);
    ExpandAppend(a + b, c);
    ExpandAppend(a, b);
  }

  /** Spaces after the first four characters add no digits, but each still counts toward the
      34-character bound. */
  lemma SpaceAfterHead(s: string, k: nat)
    requires 4 <= k <= |s|
    ensures IsValid(s[..k] + " " + s[k..]) <==> |s| + 1 <= MaxLength && IsValid(s)
  {
    var t := s[..k] + " " + s[k..];
    assert Rotate(t) == s[4..k] + " " + s[k..] + s[..4];
    assert Rotate(s) == s[4..k] + s[k..] + s[..4];
    ExpandSpaceInsert(s[4..k], s[k..], s[..4]);
    AllowedSpaceInsert(s, k);
    IsValidMeaning(s);
    IsValidMeaning(t);
  }
}
