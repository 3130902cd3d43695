/** The bookkeeping every builder shares: two mirrored transaction counts and two mirrored
    control sums, and the update one added transaction makes to them. */
module Ledger {
  import opened Common
  import opened Convert

  /** A transaction amount with its currency. The amount is the shortest decimal rendering of the
      float the caller passes. */
  datatype Money = Money(amount: string, currency: string)

  /** The group-header and payment-information counts and control sums, the sums in cents.
      A new document has all four at zero. */
  datatype Control = Control(ghCount: int, piCount: int, ghSum: int, piSum: int)

  const Fresh: Control := Control(0, 0, 0, 0)

  /** The exact sum of a list of cents. */
  function Sum(cents: seq<int>): int {
    if |cents| == 0 then 0 else Sum(cents[..|cents| - 1]) + cents[|cents| - 1]
  }

  /** The invariant the builders promise: both counts equal the number of line items and both
      sums equal the running total of their cents, as the 64-bit arithmetic computes it. */
  predicate Balanced(c: Control, cents: seq<int>) {
    && c.ghCount == c.piCount == |cents|
    && c.ghSum == c.piSum == Wrap64(Sum(cents))
  }

  /** `lib.ToCents` applied to the stored group-header sum, which the float formatting renders
      with two decimals: every 64-bit sum survives the trip, a larger one does not parse. */
  method SumToCents(sum: int) returns (r: Option<int>)
    ensures r == if InInt64(sum) then Some(sum) else None
  {
    r := CentsOfFixed(TwoPlaces(sum));
  }

  /** The error, if any, of turning a new cumulus of cents back into euros with `lib.ToEuro`. */
  method CumulusToEuro(total: int) returns (err: Option<Error>)
    requires InInt64(total)
    ensures err == Some(CumulusOutOfRange) <==> 0 <= total <= 9
    ensures err == Some(CumulusNotConvertible) <==> -9 <= total <= -1
    ensures err.None? <==> total <= -10 || total >= 10
  {
    ToEuroSpec(total);
    match ToEuro(total) {
      case Failure(e) => err := Some(e);
      case Success(_) => err := None;
    }
  }

  /** What one `AddTransaction` that got past its checks does to the counts and sums, for an
      amount of `a` cents: both counts go up by one whatever happens next; the amount must fit
      64 bits, then the old group-header sum; the 64-bit sum of the two must not lie within nine
      cents of zero; when all holds both sums become that sum, and otherwise they keep their
      old values. */
  predicate Posted(c: Control, d: Control, err: Option<Error>, a: int) {
    var total := Wrap64(c.ghSum + a);
    && d.ghCount == c.ghCount + 1 && d.piCount == c.piCount + 1
    && (err == Some(AmountNotConvertible) <==> !InInt64(a))
    && (err == Some(ControlSumNotConvertible) <==> InInt64(a) && !InInt64(c.ghSum))
    && (err == Some(CumulusOutOfRange) <==> InInt64(a) && InInt64(c.ghSum) && 0 <= total <= 9)
    && (err == Some(CumulusNotConvertible) <==> InInt64(a) && InInt64(c.ghSum) && -9 <= total <= -1)
    && (err.None? <==> InInt64(a) && InInt64(c.ghSum) && (total <= -10 || total >= 10))
    && (err.None? ==> d.ghSum == d.piSum == total)
    && (err.Some? ==> d.ghSum == c.ghSum && d.piSum == c.piSum)
  }

  /** The bookkeeping half of `AddTransaction`, once the line item is appended: both counts go
      up first; then the amount and the group-header sum are converted to cents and their 64-bit
      sum back to euros; only when every conversion succeeds are both sums set, to that sum. */
  method Post(c: Control, amount: string) returns (d: Control, err: Option<Error>)
    requires IsCentAmount(amount)
    ensures Posted(c, d, err, AmountCents(amount))
  {
    var cents := ToCents(amount);
    d, err := PostCents(c, cents, AmountCents(amount));
  }

  /** `Post` once the amount is converted: `cents` is what `ToCents` made of an amount of `a` cents. */
  method PostCents(c: Control, cents: Option<int>, ghost a: int) returns (d: Control, err: Option<Error>)
    requires cents == if InInt64(a) then Some(a) else None
    ensures Posted(c, d, err, a)
  {
    d := c.(ghCount := c.ghCount + 1, piCount := c.piCount + 1);
    if cents.None? {
      return d, Some(AmountNotConvertible);
    }
    var cumulus := SumToCents(c.ghSum);
    if cumulus.None? {
      return d, Some(ControlSumNotConvertible);
    }
    var total := Wrap64(cumulus.value + cents.value);
    err := CumulusToEuro(total);
    if err.None? {
      d := d.(ghSum := total, piSum := total);
    }
  }

  /** Adding after wrapping is wrapping after adding. */
  lemma WrapAdd(t: int, a: int)
    ensures Wrap64(Wrap64(t) + a) == Wrap64(t + a)
  {
    var w := Wrap64(t);
    var y := Wrap64(w + a);
    Wrap64Congruent(t);
    Wrap64Congruent(w + a);
    Wrap64Congruent(t + a);
    var q1 := (w - t) / TwoTo64;
    var q2 := (y - (w + a)) / TwoTo64;
    assert y - (t + a) == (q1 + q2) * TwoTo64;
    MultipleMod(q1 + q2);
  }

  lemma MultipleMod(q: int)
    ensures (q * TwoTo64) % TwoTo64 == 0
  {
  }

  /** A posting that counts one more line item and adds its cents to the group-header sum keeps
      the counts and sums in step with the list of line items. */
  lemma PostKeepsBalance(c: Control, d: Control, cents: seq<int>, a: int)
    requires Balanced(c, cents)
    requires d.ghCount == c.ghCount + 1 && d.piCount == c.piCount + 1
    requires d.ghSum == d.piSum == Wrap64(c.ghSum + a)
    ensures Balanced(d, cents + [a])
  {
    assert (cents + [a])[..|cents|] == cents;
    WrapAdd(Sum(cents), a);
  }

  /** A posting that fails after the counts went up leaves the control block as if the new line
      item were worth nothing: balanced over the earlier cents followed by 0, and balanced over
      the true cents only when adding them does not change the 64-bit total. */
  lemma LateFailureCountsAsZero(c: Control, d: Control, cents: seq<int>, err: Option<Error>, a: int)
    requires Balanced(c, cents) && Posted(c, d, err, a) && err.Some?
    ensures Balanced(d, cents + [0])
    ensures Balanced(d, cents + [a]) <==> Wrap64(Sum(cents) + a) == Wrap64(Sum(cents))
  {
    assert (cents + [0])[..|cents|] == cents;
    assert (cents + [a])[..|cents|] == cents;
  }

  predicate AllCentAmounts(ms: seq<Money>) {
    forall k :: 0 <= k < |ms| ==> IsCentAmount(ms[k].amount)
  }

  /** The cents of each amount, in order. */
  function CentsOf(ms: seq<Money>): (r: seq<int>)
    requires AllCentAmounts(ms)
    ensures |r| == |ms|
  {
    if |ms| == 0 then [] else CentsOf(ms[..|ms| - 1]) + [AmountCents(ms[|ms| - 1].amount)]
  }

  /** The line items' amounts all have at most two decimals and the control block is balanced
      over their cents. */
  predicate Settled(c: Control, ms: seq<Money>) {
    AllCentAmounts(ms) && Balanced(c, CentsOf(ms))
  }

  lemma CentsOfSnoc(ms: seq<Money>, m: Money)
    requires AllCentAmounts(ms) && IsCentAmount(m.amount)
    ensures AllCentAmounts(ms + [m])
    ensures CentsOf(ms + [m]) == CentsOf(ms) + [AmountCents(m.amount)]
  {
    var ms' := ms + [m];
    assert ms'[..|ms|] == ms && ms'[|ms|] == m;
    forall k | 0 <= k < |ms'| ensures IsCentAmount(ms'[k].amount) {
      if k < |ms| { assert ms'[k] == ms[k]; }
    }
  }

  /** A successful posting of `a` cents extends the settled list of cents by `a`. */
  lemma PostBalances(c: Control, d: Control, ms: seq<Money>, a: int)
    requires Settled(c, ms)
    requires Posted(c, d, None, a)
    ensures Balanced(d, CentsOf(ms) + [a])
  {
    PostKeepsBalance(c, d, CentsOf(ms), a);
  }

  /** A control block balanced over the cents of `ms` followed by those of `m` is settled over
      `ms + [m]`. */
  lemma SettledSnoc(d: Control, ms: seq<Money>, m: Money)
    requires AllCentAmounts(ms) && IsCentAmount(m.amount)
    requires Balanced(d, CentsOf(ms) + [AmountCents(m.amount)])
    ensures Settled(d, ms + [m])
  {
    CentsOfSnoc(ms, m);
  }

  /** A successful posting of one more amount keeps the control block settled over the longer
      list of amounts. */
  lemma PostSettles(c: Control, d: Control, ms: seq<Money>, m: Money)
    requires Settled(c, ms) && IsCentAmount(m.amount)
    requires Posted(c, d, None, AmountCents(m.amount))
    ensures Settled(d, ms + [m])
  {
    PostBalances(c, d, ms, AmountCents(m.amount));
    SettledSnoc(d, ms, m);
  }

  /** The control block a new document starts from is settled over no line items. */
  lemma FreshSettled()
    ensures Settled(Fresh, [])
  {
  }
}
