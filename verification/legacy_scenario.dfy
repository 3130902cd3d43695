/** The document the legacy builder's own test session produces: five rejected calls, two
    successful initialisations and five credit transfers, with the counts and control sums after
    each line item. */
module LegacyScenario {
  import opened Common
  import opened Decimal
  import opened Convert
  import opened Ledger
  import opened Legacy
  import IbanVectors

  /** A whole number of euros written without a '.' is an amount of that many hundred cents. */
  lemma WholeEuros(s: string)
    requires IsCanonical(s)
    ensures IsCentAmount(s) && AmountCents(s) == Value(s) * 100
  {
    var p := Parts(false, s, "");
    assert Render(p) == s;
    ParseRender(p);
    DecimalsOfRendering(s);
  }

  /** The test's amounts: a leading digit followed by four zeros, a whole number of euros. */
  lemma TenThousands(s: string, d: char)
    requires s == [d, '0', '0', '0', '0'] && '1' <= d <= '9'
    ensures IsCentAmount(s) && AmountCents(s) == DigitVal(d) * 1000000
  {
    var z := "0000";
    assert s == [d] + z;
    ValueFromAppend(0, [d], z);
    assert ValueFrom(0, [d]) == DigitVal(d) by { assert [d][1..] == []; }
    assert ValueFrom(DigitVal(d), z) == DigitVal(d) * 10000 by {
      assert z[1..] == "000" && "000"[1..] == "00" && "00"[1..] == "0" && "0"[1..] == "";
    }
    WholeEuros(s);
  }

  /** The test's date layouts accept its two dates and reject the empty string. */
  predicate TestLayouts(layouts: Layouts) {
    && layouts.isDateTime("2017-05-01T22:45:03") && layouts.isDate("2017-05-03")
    && !layouts.isDateTime("") && !layouts.isDate("")
  }

  const France: string := "FR1420041010050500013M02606"

  /** The five `InitDoc` calls of the test on a new document: an empty creation date, an empty
      execution date and an empty IBAN are refused in that order and leave the document new; the
      two calls with valid arguments both succeed, so the postal address ends with the empty lines
      of the first one followed by the street and city of the second. */
  method InitSession(layouts: Layouts) returns (doc: Document, errs: seq<Option<Error>>)
    requires TestLayouts(layouts)
    ensures errs == [Some(BadCreationDate), Some(BadExecutionDate), Some(InvalidEmitterIban), None, None]
    ensures Consistent(doc)
    ensures doc.msgId == "VIR201705" && doc.paymentInfoId == "2017-05-01T12:00:00"
    ensures doc.emitterName == "Franz Holzapfel GMBH" && doc.emitterIban == France
    ensures doc.postalAddress == ["", "", "some street", "some city"]
    ensures doc.transactions == [] && doc.control == Fresh
  {
    var o1 := InitDoc(Empty, layouts, "", "2017-05-01", "", "", "", "", "", "", "", "");
    var o2 := InitDoc(o1.doc, layouts, "", "2017-05-01", "2017-05-01T22:45:03", "", "", "", "", "", "", "");
    var o3 := InitDoc(o2.doc, layouts, "", "2017-05-01", "2017-05-01T22:45:03", "2017-05-03", "XX12345678901234567", "", "", "", "", "");
    IbanVectors.ValidFrance(France);
    var o4 := InitDoc(o3.doc, layouts, "", "2017-05-01", "2017-05-01T22:45:03", "2017-05-03", France, France, "", "", "", "");
    var o5 := InitDoc(o4.doc, layouts, "VIR201705", "2017-05-01T12:00:00", "2017-05-01T22:45:03", "2017-05-03",
                      "Franz Holzapfel GMBH", France, "BKAUATWW", "DE", "some street", "some city");
    doc := o5.doc;
    errs := [o1.err, o2.err, o3.err, o4.err, o5.err];
    FreshSettled();
  }

  /** The two `AddTransaction` calls the test expects to fail: an IBAN with an unknown country
      code, then an amount with three decimals. Neither changes the document. */
  method RejectSession(doc: Document) returns (doc': Document, errs: seq<Option<Error>>)
    ensures errs == [Some(InvalidCreditorIban), Some(TooManyDecimals)]
    ensures doc' == doc
  {
    WholeEuros("0");
    IbanVectors.InvalidCountryCode("ZZ382200221020145685");
    var o1 := AddTransaction(doc, "XXX", "0", "XXX", "XXX", "ZZ382200221020145685", "", "");
    var p := Parts(false, "1", "234");
    assert Render(p) == "1.234";
    ParseRender(p);
    DecimalsOfRendering("1.234");
    IbanVectors.ValidEstonia("EE382200221020145685");
    var o2 := AddTransaction(o1.doc, "XXX", "1.234", "XXX", "XXX", "EE382200221020145685", "", "");
    doc' := o2.doc;
    errs := [o1.err, o2.err];
  }

  /** One transfer of the test, with the arguments in the order `AddTransaction` takes them and
      the amount's value in cents. */
  datatype Line = Line(id: string, amount: string, name: string, iban: string,
                       description: string, bic: string, cents: int)

  /** The five transfers of the test, passed as it passes them: its BIC lands in the description
      parameter and its description in the BIC parameter. */
  const Lines: seq<Line> := [
    Line("F201705", "70000", "DEF Electronics", "GB29NWBK60161331926819", "BKAUATWW", "Cables", 7000000),
    Line("F201706", "10000", "D1F Electronics", "AT611904300234573201", "BKAUATWW", "Microchips", 1000000),
    Line("F201707", "20000", "D2F Electronics", "BE62510007547061", "BKAUATWW", "Monitor", 2000000),
    Line("F201708", "30000", "D3F Electronics", "BG80BNBG96611020345678", "BKAUATWW", "Notebooks", 3000000),
    Line("F201709", "40000", "D4F Electronics", "EE382200221020145685", "BKAUATWW", "Laserrocket", 4000000)]

  /** The line item a transfer appends: the test's BIC ends up as the remittance text and its
      description as the creditor BIC. */
  function ItemOf(line: Line): Transaction {
    Transaction(line.id, line.id, Money(line.amount, "EUR"), line.bic, line.name, line.iban,
                Regulatory, line.description)
  }

  /** The line item the k-th transfer appends. */
  function Item(k: nat): Transaction
    requires k < |Lines|
  {
    ItemOf(Lines[k])
  }

  /** The cents of the first `k` transfers. */
  function Total(k: nat): int
    requires k <= |Lines|
  {
    if k == 0 then 0 else Total(k - 1) + Lines[k - 1].cents
  }

  /** A transfer the builder accepts: an amount with at most two decimals worth the listed cents,
      between 10000 and 70000 euros, and a valid creditor IBAN. */
  predicate Acceptable(line: Line) {
    && IsCentAmount(line.amount) && AmountCents(line.amount) == line.cents
    && 1000000 <= line.cents <= 7000000
    && Iban.IsValid(line.iban)
  }

  /** Each transfer of the test is acceptable. */
  lemma LineFacts(k: nat)
    requires k < |Lines|
    ensures Acceptable(Lines[k])
  {
    if k == 0 {
      TenThousands(Lines[k].amount, '7');
      IbanVectors.ValidBritain(Lines[k].iban);
    } else if k == 1 {
      TenThousands(Lines[k].amount, '1');
      IbanVectors.ValidAustria(Lines[k].iban);
    } else if k == 2 {
      TenThousands(Lines[k].amount, '2');
      IbanVectors.ValidBelgium(Lines[k].iban);
    } else if k == 3 {
      TenThousands(Lines[k].amount, '3');
      IbanVectors.ValidBulgaria(Lines[k].iban);
    } else {
      TenThousands(Lines[k].amount, '4');
      IbanVectors.ValidEstonia(Lines[k].iban);
    }
  }

  lemma {:induction false} TotalRange(k: nat)
    requires k <= |Lines|
    ensures 1000000 * k <= Total(k) <= 7000000 * k
  {
    if k > 0 {
      TotalRange(k - 1);
    }
  }

  /** Posting a positive amount far from the 64-bit limits onto balanced sums succeeds and adds it
      to both sums. */
  lemma PostedSmall(n: nat, total: int, d: Control, err: Option<Error>, a: int)
    requires 0 <= total <= 100000000 && 1000000 <= a <= 7000000
    requires Posted(Control(n, n, total, total), d, err, a)
    ensures err.None? && d == Control(n + 1, n + 1, total + a, total + a)
  {
    assert InInt64(total + a);
  }

  /** One admitted transfer on a document whose counts are `n` and whose sums are `total`, both
      far from the 64-bit limits: accepted, its item appended and its cents added to both sums. */
  method Accept(doc: Document, line: Line, n: nat, total: int) returns (doc': Document, err: Option<Error>)
    requires Acceptable(line)
    requires doc.control == Control(n, n, total, total) && 0 <= total <= 100000000
    ensures err.None? && doc'.control == Control(n + 1, n + 1, total + line.cents, total + line.cents)
    ensures doc'.transactions == doc.transactions + [ItemOf(line)]
  {
    var out := AddTransaction(doc, line.id, line.amount, "EUR", line.name, line.iban,
                              line.description, line.bic);
    PostedSmall(n, total, out.doc.control, out.err, line.cents);
    doc', err := out.doc, out.err;
  }

  /** The k-th transfer of the test on a document holding the earlier ones: accepted, one more
      count and its cents added to both sums. */
  method AddLine(doc: Document, k: nat) returns (doc': Document, err: Option<Error>)
    requires k < |Lines| && doc.control == Control(k, k, Total(k), Total(k))
    ensures err.None? && doc'.control == Control(k + 1, k + 1, Total(k + 1), Total(k + 1))
    ensures doc'.transactions == doc.transactions + [Item(k)]
  {
    var line := Lines[k];
    LineFacts(k);
    TotalRange(k);
    assert Total(k + 1) == Total(k) + line.cents;
    doc', err := Accept(doc, line, k, Total(k));
  }

  lemma TotalValues()
    ensures Total(1) == 7000000 && Total(2) == 8000000 && Total(3) == 10000000
    ensures Total(4) == 13000000 && Total(5) == 17000000
  {
  }

  /** The test's loop over the five transfers: each is accepted, and after the k-th both counts
      are k and both sums are the running total of the amounts, 170000 euros in the end. */
  method AddSession(doc: Document) returns (doc': Document)
    requires doc.transactions == [] && doc.control == Fresh
    ensures doc'.control == Control(5, 5, 17000000, 17000000) && |doc'.transactions| == 5
    ensures forall j :: 0 <= j < 5 ==> doc'.transactions[j] == Item(j)
    ensures doc'.transactions[0].creditorBic == "Cables" && doc'.transactions[0].motif == "BKAUATWW"
  {
    doc' := doc;
    var k := 0;
    while k < |Lines|
      invariant 0 <= k <= |Lines|
      invariant doc'.control == Control(k, k, Total(k), Total(k))
      invariant |doc'.transactions| == k
      invariant forall j :: 0 <= j < k ==> doc'.transactions[j] == Item(j)
    {
      var err;
      doc', err := AddLine(doc', k);
      k := k + 1;
    }
    TotalValues();
  }
}
