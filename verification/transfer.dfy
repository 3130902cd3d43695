/** The credit-transfer builder (pain.001.001.03): a document header set once by `InitDoc` and a
    list of credit transactions grown by `AddTransaction`. */
module Transfer {
  import opened Common
  import opened Text
  import Iban
  import opened Convert
  import opened Ledger

  const Namespace: string := "urn:iso:std:iso:20022:tech:xsd:pain.001.001.03"
  const SchemaLocation: string := "urn:iso:std:iso:20022:tech:xsd:pain.001.001.03 pain.001.001.03.xsd"
  /** The creditor identifier every credit-transfer document carries. */
  const DebitorId: string := "DE79ZZZ00000628465"

  /** One credit transfer line item. */
  datatype CreditTransaction = CreditTransaction(
    instrId: string,
    endToEndId: string,
    amount: Money,
    creditorBic: string,
    creditorName: string,
    creditorIban: string,
    motif: string)

  /** The document: header fields, payment-information fields, line items and the control block
      (group-header and payment-information counts and sums). */
  datatype CreditTransfer = CreditTransfer(
    schemaLocation: string,
    namespace: string,
    xsi: string,
    msgId: string,
    creationDate: string,
    headerEmitterName: string,
    paymentInfoId: string,
    paymentMethod: string,
    batchBooking: string,
    serviceLevel: string,
    executionDate: string,
    emitterName: string,
    postalCountry: string,
    postalAddress: seq<string>,
    debitorId: string,
    emitterIban: string,
    emitterBic: string,
    charge: string,
    transactions: seq<CreditTransaction>,
    control: Control)

  /** A document nobody has written to yet. */
  const Empty: CreditTransfer :=
    CreditTransfer("", "", "", "", "", "", "", "", "", "", "", "", "", [], "", "", "", "", [], Fresh)

  /** The amounts of the line items, in order. Each builder keeps its own copy of this and of
      `AmountsSnoc`, since the three builders are independent modules over different item types. */
  function Amounts(txs: seq<CreditTransaction>): (ms: seq<Money>)
    ensures |ms| == |txs|
    ensures forall i :: 0 <= i < |txs| ==> ms[i] == txs[i].amount
  {
    seq(|txs|, i requires 0 <= i < |txs| => txs[i].amount)
  }

  lemma AmountsSnoc(txs: seq<CreditTransaction>, tx: CreditTransaction)
    ensures Amounts(txs + [tx]) == Amounts(txs) + [tx.amount]
  {
    assert Amounts(txs + [tx]) == Amounts(txs) + [tx.amount];
  }

  /** The builder's invariant: both counts are the number of line items and both sums are the
      running total of their cents. */
  predicate Consistent(doc: CreditTransfer) {
    Settled(doc.control, Amounts(doc.transactions))
  }

  /** `CreditTransfer.InitDoc`: strip white space from the emitter IBAN; check the creation
      date-time, then the execution date, then the stripped IBAN, returning at the first failure
      with the document untouched; otherwise fill the protocol constants and the emitter fields,
      replacing the postal address with [street, city]. */
  function InitDoc(doc: CreditTransfer, layouts: Layouts, msgId: string, paymentInfoId: string,
                   creationDate: string, executionDate: string, emitterName: string,
                   emitterIban: string, emitterBic: string, countryCode: string,
                   street: string, city: string): (out: Outcome<CreditTransfer>)
    ensures out.err == Some(BadCreationDate) <==> !layouts.isDateTime(creationDate)
    ensures out.err == Some(BadExecutionDate) <==>
      layouts.isDateTime(creationDate) && !layouts.isDate(executionDate)
    ensures out.err == Some(InvalidEmitterIban) <==>
      layouts.isDateTime(creationDate) && layouts.isDate(executionDate) &&
      !Iban.IsValid(RemoveSpace(emitterIban))
    ensures out.err.None? <==>
      layouts.isDateTime(creationDate) && layouts.isDate(executionDate) && Iban.IsValid(RemoveSpace(emitterIban))
    ensures out.err.Some? ==> out.doc == doc
    ensures out.err.None? ==>
      && NoSpace(out.doc.emitterIban) && Iban.IsValid(out.doc.emitterIban)
      && out.doc.emitterIban == RemoveSpace(emitterIban)
      && out.doc.schemaLocation == SchemaLocation && out.doc.namespace == Namespace
      && out.doc.xsi == XmlSchemaInstance
      && out.doc.paymentMethod == "TRF" && out.doc.serviceLevel == "SEPA"
      && out.doc.charge == "SLEV" && out.doc.batchBooking == "true"
      && out.doc.debitorId == DebitorId
      && out.doc.msgId == msgId && out.doc.paymentInfoId == paymentInfoId
      && out.doc.creationDate == creationDate && out.doc.executionDate == executionDate
      && out.doc.headerEmitterName == emitterName && out.doc.emitterName == emitterName
      && out.doc.emitterBic == emitterBic && out.doc.postalCountry == countryCode
      && out.doc.postalAddress == [street, city]
    ensures out.doc.transactions == doc.transactions && out.doc.control == doc.control
  {
    var iban := StripSpace(emitterIban);
    StripSpaceProperties(emitterIban, "");
    if !layouts.isDateTime(creationDate) then Outcome(doc, Some(BadCreationDate))
    else if !layouts.isDate(executionDate) then Outcome(doc, Some(BadExecutionDate))
    else if !Iban.IsValid(iban) then Outcome(doc, Some(InvalidEmitterIban))
    else
      Outcome(doc.(
        schemaLocation := SchemaLocation,
        namespace := Namespace,
        xsi := XmlSchemaInstance,
        paymentMethod := "TRF",
        serviceLevel := "SEPA",
        charge := "SLEV",
        batchBooking := "true",
        debitorId := DebitorId,
        msgId := msgId,
        paymentInfoId := paymentInfoId,
        creationDate := creationDate,
        executionDate := executionDate,
        headerEmitterName := emitterName,
        emitterName := emitterName,
        emitterIban := iban,
        emitterBic := emitterBic,
        postalCountry := countryCode,
        postalAddress := [street, city]), None)
  }

  /** Because the postal address is replaced rather than extended, a second identical `InitDoc`
      leaves the document as the first one left it. */
  lemma InitDocIdempotent(doc: CreditTransfer, layouts: Layouts, msgId: string, paymentInfoId: string,
                          creationDate: string, executionDate: string, emitterName: string,
                          emitterIban: string, emitterBic: string, countryCode: string,
                          street: string, city: string)
    ensures var once := InitDoc(doc, layouts, msgId, paymentInfoId, creationDate, executionDate,
                                emitterName, emitterIban, emitterBic, countryCode, street, city);
            InitDoc(once.doc, layouts, msgId, paymentInfoId, creationDate, executionDate,
                    emitterName, emitterIban, emitterBic, countryCode, street, city) == once
  {
  }

  /** The checks `AddTransaction` makes before it writes anything: the stripped creditor IBAN is
      valid and the amount has at most two decimals. */
  predicate Admitted(creditorIban: string, amount: string) {
    Iban.IsValid(RemoveSpace(creditorIban)) && DecimalsNumber(amount) <= 2
  }

  /** `CreditTransfer.AddTransaction`: strip white space from the creditor IBAN and reject it if
      invalid, then reject an amount with more than two decimals, both without writing; otherwise
      append one line item whose instruction and end-to-end ids are both `id`, and post its
      amount to the control block. A failure while posting leaves the line item and the raised
      counts in place. */
  method AddTransaction(doc: CreditTransfer, id: string, amount: string, currency: string,
                        creditorName: string, creditorIban: string, bic: string, description: string)
    returns (out: Outcome<CreditTransfer>)
    requires IsRendering(amount)
    ensures out.err == Some(InvalidCreditorIban) <==> !Iban.IsValid(RemoveSpace(creditorIban))
    ensures out.err == Some(TooManyDecimals) <==>
      Iban.IsValid(RemoveSpace(creditorIban)) && DecimalsNumber(amount) > 2
    ensures !Admitted(creditorIban, amount) ==> out.doc == doc
    ensures Admitted(creditorIban, amount) ==>
      && out.doc == doc.(transactions := out.doc.transactions, control := out.doc.control)
      && out.doc.transactions == doc.transactions +
           [CreditTransaction(id, id, Money(amount, currency), bic, creditorName,
                              RemoveSpace(creditorIban), description)]
      && Posted(doc.control, out.doc.control, out.err, AmountCents(amount))
    ensures Consistent(doc) && out.err.None? ==> Consistent(out.doc)
  {
    var iban := StripSpace(creditorIban);
    if !Iban.IsValid(iban) {
      return Outcome(doc, Some(InvalidCreditorIban));
    }
    if DecimalsNumber(amount) > 2 {
      return Outcome(doc, Some(TooManyDecimals));
    }
    var tx := CreditTransaction(id, id, Money(amount, currency), bic, creditorName, iban, description);
    var control, err := Post(doc.control, amount);
    out := Outcome(doc.(transactions := doc.transactions + [tx], control := control), err);
    if Consistent(doc) && err.None? {
      AppendKeepsConsistent(doc, out.doc, tx);
    }
  }

  /** A line item appended with a successful posting of its amount keeps the document
      consistent. */
  lemma AppendKeepsConsistent(doc: CreditTransfer, doc': CreditTransfer, tx: CreditTransaction)
    requires Consistent(doc) && IsCentAmount(tx.amount.amount)
    requires doc'.transactions == doc.transactions + [tx]
    requires Posted(doc.control, doc'.control, None, AmountCents(tx.amount.amount))
    ensures Consistent(doc')
  {
    AmountsSnoc(doc.transactions, tx);
    PostSettles(doc.control, doc'.control, Amounts(doc.transactions), tx.amount);
  }
}
