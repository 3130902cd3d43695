/** The older credit-transfer builder of the `sepa` package (`Document`, pain.001.001.03). It
    differs from `Transfer` in three ways: IBANs are checked and stored as given, with no white
    space removed; `InitDoc` appends the two address lines instead of replacing the address; and
    each line item carries the regulatory reporting code "150". */
module Legacy {
  import opened Common
  import Iban
  import opened Convert
  import opened Ledger

  const Namespace: string := "urn:iso:std:iso:20022:tech:xsd:pain.001.001.03"
  const SchemaLocation: string := "urn:iso:std:iso:20022:tech:xsd:pain.001.001.03 pain.001.001.03.xsd"
  /** The regulatory reporting code of every line item. */
  const Regulatory: string := "150"

  /** One credit transfer line item. */
  datatype Transaction = Transaction(
    instrId: string,
    endToEndId: string,
    amount: Money,
    creditorBic: string,
    creditorName: string,
    creditorIban: string,
    regulatory: string,
    motif: string)

  /** The document: header fields, payment-information fields, line items and the control block
      (group-header and payment-information counts and sums). */
  datatype Document = Document(
    schemaLocation: string,
    namespace: string,
    xsi: string,
    msgId: string,
    creationDate: string,
    headerEmitterName: string,
    paymentInfoId: string,
    paymentMethod: string,
    batchBooking: string,
    serviceLevel: string,
    paymentType: string,
    executionDate: string,
    emitterName: string,
    postalCountry: string,
    postalAddress: seq<string>,
    emitterIban: string,
    emitterBic: string,
    charge: string,
    transactions: seq<Transaction>,
    control: Control)

  /** A document nobody has written to yet. */
  const Empty: Document :=
    Document("", "", "", "", "", "", "", "", "", "", "", "", "", "", [], "", "", "", [], Fresh)

  /** The amounts of the line items, in order. Each builder keeps its own copy of this and of
      `AmountsSnoc`, since the three builders are independent modules over different item types. */
  function Amounts(txs: seq<Transaction>): (ms: seq<Money>)
    ensures |ms| == |txs|
    ensures forall i :: 0 <= i < |txs| ==> ms[i] == txs[i].amount
  {
    seq(|txs|, i requires 0 <= i < |txs| => txs[i].amount)
  }

  lemma AmountsSnoc(txs: seq<Transaction>, tx: Transaction)
    ensures Amounts(txs + [tx]) == Amounts(txs) + [tx.amount]
  {
    assert Amounts(txs + [tx]) == Amounts(txs) + [tx.amount];
  }

  /** The builder's invariant: both counts are the number of line items and both sums are the
      running total of their cents. */
  predicate Consistent(doc: Document) {
    Settled(doc.control, Amounts(doc.transactions))
  }

  /** `Document.InitDoc`: check the creation date-time, then the execution date, then the
      emitter IBAN as given, returning at the first failure with the document untouched;
      otherwise fill the protocol constants and the emitter fields, store the IBAN verbatim and
      append `addr1` and `addr2` to the postal address lines already there. */
  function InitDoc(doc: Document, layouts: Layouts, msgId: string, paymentInfoId: string,
                   creationDate: string, executionDate: string, emitterName: string,
                   emitterIban: string, emitterBic: string, countryCode: string,
                   addr1: string, addr2: string): (out: Outcome<Document>)
    ensures out.err == Some(BadCreationDate) <==> !layouts.isDateTime(creationDate)
    ensures out.err == Some(BadExecutionDate) <==>
      layouts.isDateTime(creationDate) && !layouts.isDate(executionDate)
    ensures out.err == Some(InvalidEmitterIban) <==>
      layouts.isDateTime(creationDate) && layouts.isDate(executionDate) &&
      !Iban.IsValid(emitterIban)
    ensures out.err.None? <==>
      layouts.isDateTime(creationDate) && layouts.isDate(executionDate) && Iban.IsValid(emitterIban)
    ensures out.err.Some? ==> out.doc == doc
    ensures out.err.None? ==>
      && out.doc.emitterIban == emitterIban && Iban.IsValid(out.doc.emitterIban)
      && out.doc.schemaLocation == SchemaLocation && out.doc.namespace == Namespace
      && out.doc.xsi == XmlSchemaInstance
      && out.doc.paymentMethod == "TRF" && out.doc.serviceLevel == "SEPA"
      && out.doc.charge == "SLEV" && out.doc.batchBooking == "true"
      && out.doc.paymentType == "CORE"
      && out.doc.msgId == msgId && out.doc.paymentInfoId == paymentInfoId
      && out.doc.creationDate == creationDate && out.doc.executionDate == executionDate
      && out.doc.headerEmitterName == emitterName && out.doc.emitterName == emitterName
      && out.doc.emitterBic == emitterBic && out.doc.postalCountry == countryCode
      && out.doc.postalAddress == doc.postalAddress + [addr1, addr2]
    ensures out.doc.transactions == doc.transactions && out.doc.control == doc.control
  {
    if !layouts.isDateTime(creationDate) then Outcome(doc, Some(BadCreationDate))
    else if !layouts.isDate(executionDate) then Outcome(doc, Some(BadExecutionDate))
    else if !Iban.IsValid(emitterIban) then Outcome(doc, Some(InvalidEmitterIban))
    else
      Outcome(doc.(
        schemaLocation := SchemaLocation,
        namespace := Namespace,
        xsi := XmlSchemaInstance,
        paymentMethod := "TRF",
        serviceLevel := "SEPA",
        charge := "SLEV",
        batchBooking := "true",
        paymentType := "CORE",
        msgId := msgId,
        paymentInfoId := paymentInfoId,
        creationDate := creationDate,
        executionDate := executionDate,
        headerEmitterName := emitterName,
        emitterName := emitterName,
        emitterIban := emitterIban,
        emitterBic := emitterBic,
        postalCountry := countryCode,
        postalAddress := doc.postalAddress + [addr1, addr2]), None)
  }

  /** Unlike the newer builders, a second identical successful `InitDoc` is not a no-op: the
      address lines are appended once more. */
  lemma InitDocTwiceRepeatsAddress(doc: Document, layouts: Layouts, msgId: string, paymentInfoId: string,
                                   creationDate: string, executionDate: string, emitterName: string,
                                   emitterIban: string, emitterBic: string, countryCode: string,
                                   addr1: string, addr2: string)
    ensures var once := InitDoc(doc, layouts, msgId, paymentInfoId, creationDate, executionDate,
                                emitterName, emitterIban, emitterBic, countryCode, addr1, addr2);
            var twice := InitDoc(once.doc, layouts, msgId, paymentInfoId, creationDate, executionDate,
                                 emitterName, emitterIban, emitterBic, countryCode, addr1, addr2);
            && twice.err == once.err
            && (once.err.None? ==>
                  && twice.doc.postalAddress == doc.postalAddress + [addr1, addr2, addr1, addr2]
                  && twice.doc == once.doc.(postalAddress := twice.doc.postalAddress))
  {
  }

  /** The checks `AddTransaction` makes before it writes anything: the creditor IBAN, as given,
      is valid and the amount has at most two decimals. */
  predicate Admitted(creditorIban: string, amount: string) {
    Iban.IsValid(creditorIban) && DecimalsNumber(amount) <= 2
  }

  /** `Document.AddTransaction`: reject an invalid creditor IBAN (white space included), then an
      amount with more than two decimals, both without writing; otherwise append one line item
      whose instruction and end-to-end ids are both `id`, with the regulatory code "150", and post
      its amount to the control block. The description comes before the BIC among the
      parameters. A failure while posting leaves the line item and the raised counts in place. */
  method AddTransaction(doc: Document, id: string, amount: string, currency: string,
                        creditorName: string, creditorIban: string, description: string, bic: string)
    returns (out: Outcome<Document>)
    requires IsRendering(amount)
    ensures out.err == Some(InvalidCreditorIban) <==> !Iban.IsValid(creditorIban)
    ensures out.err == Some(TooManyDecimals) <==>
      Iban.IsValid(creditorIban) && DecimalsNumber(amount) > 2
    ensures !Admitted(creditorIban, amount) ==> out.doc == doc
    ensures Admitted(creditorIban, amount) ==>
      && out.doc == doc.(transactions := out.doc.transactions, control := out.doc.control)
      && out.doc.transactions == doc.transactions +
           [Transaction(id, id, Money(amount, currency), bic, creditorName, creditorIban,
                        Regulatory, description)]
      && Posted(doc.control, out.doc.control, out.err, AmountCents(amount))
    ensures Consistent(doc) && out.err.None? ==> Consistent(out.doc)
  {
    if !Iban.IsValid(creditorIban) {
      return Outcome(doc, Some(InvalidCreditorIban));
    }
    if DecimalsNumber(amount) > 2 {
      return Outcome(doc, Some(TooManyDecimals));
    }
    var tx := Transaction(id, id, Money(amount, currency), bic, creditorName, creditorIban,
                          Regulatory, description);
    var control, err := Post(doc.control, amount);
    out := Outcome(doc.(transactions := doc.transactions + [tx], control := control), err);
    if Consistent(doc) && err.None? {
      AppendKeepsConsistent(doc, out.doc, tx);
    }
  }

  /** A line item appended with a successful posting of its amount keeps the document
      consistent. */
  lemma AppendKeepsConsistent(doc: Document, doc': Document, tx: Transaction)
    requires Consistent(doc) && IsCentAmount(tx.amount.amount)
    requires doc'.transactions == doc.transactions + [tx]
    requires Posted(doc.control, doc'.control, None, AmountCents(tx.amount.amount))
    ensures Consistent(doc')
  {
    AmountsSnoc(doc.transactions, tx);
    PostSettles(doc.control, doc'.control, Amounts(doc.transactions), tx.amount);
  }
}
