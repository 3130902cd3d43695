/** The third copy of the IBAN check, the `IsValid` method of the `IBAN` string type, written
    here the way the source runs it: one pass over the rotated string that grows a big integer. */
module ModelIban {
  import opened Decimal
  import opened Iban

  /** `IBAN.IsValid`: false outside the length bounds; otherwise every upper-case letter appends
      the two digits of its number and every digit appends itself to the accumulator, a space
      appends nothing and any other character ends the check with false; the verdict is whether
      the accumulator leaves remainder 1 modulo 97. It agrees with `Iban.IsValid` on every input. */
  method IsValid(b: string) returns (ok: bool)
    ensures ok == Iban.IsValid(b)
    ensures ok ==> MinLength <= |b| <= MaxLength && AllAllowed(b)
  {
    IsValidMeaning(b);
    if |b| < 4 || |b| > 34 {
      return false;
    }
    var r := b[4..] + b[..4];
    var acc: nat := 0;
    var i := 0;
    while i < |r|
      invariant 0 <= i <= |r|
      invariant Accumulate(r, i, acc) == Accumulate(r, 0, 0)
    {
      var v := r[i];
      if 'A' <= v <= 'Z' {
        var ch := v as int - 'A' as int + 10;
        acc := acc * 10 + ch / 10;
        acc := acc * 10 + ch % 10;
      } else if '0' <= v <= '9' {
        acc := acc * 10 + (v as int - '0' as int);
      } else if v == ' ' {
      } else {
        return false;
      }
      i := i + 1;
    }
    IsValidFromLoop(b, acc);
    ok := acc % 97 == 1;
  }
}
