/** The direct-debit builder (pain.008.003.02): a document header set once by `InitDoc` and a
    list of debit transactions grown by `AddTransaction`. */
module Debit {
  import opened Common
  import opened Text
  import Iban
  import opened Convert
  import opened Ledger

  const Namespace: string := "urn:iso:std:iso:20022:tech:xsd:pain.008.003.02"
  const SchemaLocation: string := "urn:iso:std:iso:20022:tech:xsd:pain.008.003.02 pain.008.003.02.xsd"

  /** One direct debit line item. The counterparty fields keep the source's "creditor" names
      although they describe the debtor being collected from. */
  datatype DebitTransaction = DebitTransaction(
    endToEndId: string,
    amount: Money,
    mandateId: string,
    signatureDate: string,
    creditorBic: string,
    creditorName: string,
    creditorIban: string,
    motif: string)

  /** The document: header fields, payment-information fields, line items and the control block
      (group-header and payment-information counts and sums). */
  datatype DirectDebit = DirectDebit(
    schemaLocation: string,
    namespace: string,
    xsi: string,
    msgId: string,
    creationDate: string,
    headerEmitterName: string,
    paymentInfoId: string,
    paymentMethod: string,
    batchBooking: string,
    serviceLevel: string,
    localInstrument: string,
    sequenceType: string,
    collectionDate: string,
    emitterName: string,
    postalCountry: string,
    postalAddress: seq<string>,
    emitterIban: string,
    emitterBic: string,
    emitterId: string,
    proprietary: string,
    transactions: seq<DebitTransaction>,
    control: Control)

  /** A document nobody has written to yet. */
  const Empty: DirectDebit :=
    DirectDebit("", "", "", "", "", "", "", "", "", "", "", "", "", "", "", [], "", "", "", "", [], Fresh)

  /** The amounts of the line items, in order. Each builder keeps its own copy of this and of
      `AmountsSnoc`, since the three builders are independent modules over different item types. */
  function Amounts(txs: seq<DebitTransaction>): (ms: seq<Money>)
    ensures |ms| == |txs|
    ensures forall i :: 0 <= i < |txs| ==> ms[i] == txs[i].amount
  {
    seq(|txs|, i requires 0 <= i < |txs| => txs[i].amount)
  }

  lemma AmountsSnoc(txs: seq<DebitTransaction>, tx: DebitTransaction)
    ensures Amounts(txs + [tx]) == Amounts(txs) + [tx.amount]
  {
    assert Amounts(txs + [tx]) == Amounts(txs) + [tx.amount];
  }

  /** The builder's invariant: both counts are the number of line items and both sums are the
      running total of their cents. */
  predicate Consistent(doc: DirectDebit) {
    Settled(doc.control, Amounts(doc.transactions))
  }

  /** `DirectDebit.InitDoc`: strip white space from the emitter IBAN; check the creation
      date-time, then the collection date, then the stripped IBAN, returning at the first failure
      with the document untouched; otherwise fill the protocol constants and the emitter fields,
      replacing the postal address with [street, city]. */
  function InitDoc(doc: DirectDebit, layouts: Layouts, msgId: string, paymentInfoId: string,
                   creationDate: string, executionDate: string, emitterName: string,
                   emitterIban: string, emitterBic: string, emitterId: string,
                   countryCode: string, street: string, city: string): (out: Outcome<DirectDebit>)
    ensures out.err == Some(BadCreationDate) <==> !layouts.isDateTime(creationDate)
    ensures out.err == Some(BadExecutionDate) <==>
      layouts.isDateTime(creationDate) && !layouts.isDate(executionDate)
    ensures out.err == Some(InvalidEmitterIban) <==>
      layouts.isDateTime(creationDate) && layouts.isDate(executionDate) &&
      !Iban.IsValid(RemoveSpace(emitterIban))
    ensures out.err.None? <==>
      layouts.isDateTime(creationDate) && layouts.isDate(executionDate) && Iban.IsValid(RemoveSpace(emitterIban))
    ensures out.err.Some? ==> out.doc == doc
    ensures out.err.None? ==>
      && NoSpace(out.doc.emitterIban) && Iban.IsValid(out.doc.emitterIban)
      && out.doc.emitterIban == RemoveSpace(emitterIban)
      && out.doc.schemaLocation == SchemaLocation && out.doc.namespace == Namespace
      && out.doc.xsi == XmlSchemaInstance
      && out.doc.paymentMethod == "DD" && out.doc.batchBooking == "true"
      && out.doc.serviceLevel == "SEPA" && out.doc.localInstrument == "CORE"
      && out.doc.sequenceType == "FRST" && out.doc.proprietary == "SEPA"
      && out.doc.msgId == msgId && out.doc.paymentInfoId == paymentInfoId
      && out.doc.creationDate == creationDate && out.doc.collectionDate == executionDate
      && out.doc.headerEmitterName == emitterName && out.doc.emitterName == emitterName
      && out.doc.emitterBic == emitterBic && out.doc.emitterId == emitterId
      && out.doc.postalCountry == countryCode
      && out.doc.postalAddress == [street, city]
    ensures out.doc.transactions == doc.transactions && out.doc.control == doc.control
  {
    var iban := StripSpace(emitterIban);
    StripSpaceProperties(emitterIban, "");
    if !layouts.isDateTime(creationDate) then Outcome(doc, Some(BadCreationDate))
    else if !layouts.isDate(executionDate) then Outcome(doc, Some(BadExecutionDate))
    else if !Iban.IsValid(iban) then Outcome(doc, Some(InvalidEmitterIban))
    else
      Outcome(doc.(
        schemaLocation := SchemaLocation,
        namespace := Namespace,
        xsi := XmlSchemaInstance,
        msgId := msgId,
        creationDate := creationDate,
        headerEmitterName := emitterName,
        paymentInfoId := paymentInfoId,
        paymentMethod := "DD",
        batchBooking := "true",
        serviceLevel := "SEPA",
        localInstrument := "CORE",
        sequenceType := "FRST",
        collectionDate := executionDate,
        emitterName := emitterName,
        postalCountry := countryCode,
        postalAddress := [street, city],
        emitterIban := iban,
        emitterBic := emitterBic,
        emitterId := emitterId,
        proprietary := "SEPA"), None)
  }

  /** Because the postal address is replaced rather than extended, a second identical `InitDoc`
      leaves the document as the first one left it. */
  lemma InitDocIdempotent(doc: DirectDebit, layouts: Layouts, msgId: string, paymentInfoId: string,
                          creationDate: string, executionDate: string, emitterName: string,
                          emitterIban: string, emitterBic: string, emitterId: string,
                          countryCode: string, street: string, city: string)
    ensures var once := InitDoc(doc, layouts, msgId, paymentInfoId, creationDate, executionDate,
                                emitterName, emitterIban, emitterBic, emitterId, countryCode, street, city);
            InitDoc(once.doc, layouts, msgId, paymentInfoId, creationDate, executionDate,
                    emitterName, emitterIban, emitterBic, emitterId, countryCode, street, city) == once
  {
  }

  /** The checks `AddTransaction` makes before it writes anything: the stripped creditor IBAN is
      valid and the amount has at most two decimals. */
  predicate Admitted(creditorIban: string, amount: string) {
    Iban.IsValid(RemoveSpace(creditorIban)) && DecimalsNumber(amount) <= 2
  }

  /** `DirectDebit.AddTransaction`: strip white space from the counterparty IBAN and reject it
      if invalid, then reject an amount with more than two decimals, both without writing;
      otherwise append one line item with end-to-end id `id` and the mandate id and signature date
      as given, and post its amount to the control block. A failure while posting leaves the line
      item and the raised counts in place. */
  method AddTransaction(doc: DirectDebit, id: string, amount: string, currency: string,
                        creditorName: string, creditorIban: string, bic: string, description: string,
                        mandateId: string, signatureDate: string)
    returns (out: Outcome<DirectDebit>)
    requires IsRendering(amount)
    ensures out.err == Some(InvalidCreditorIban) <==> !Iban.IsValid(RemoveSpace(creditorIban))
    ensures out.err == Some(TooManyDecimals) <==>
      Iban.IsValid(RemoveSpace(creditorIban)) && DecimalsNumber(amount) > 2
    ensures !Admitted(creditorIban, amount) ==> out.doc == doc
    ensures Admitted(creditorIban, amount) ==>
      && out.doc == doc.(transactions := out.doc.transactions, control := out.doc.control)
      && out.doc.transactions == doc.transactions +
           [DebitTransaction(id, Money(amount, currency), mandateId, signatureDate, bic,
                             creditorName, RemoveSpace(creditorIban), description)]
      && Posted(doc.control, out.doc.control, out.err, AmountCents(amount))
    ensures Consistent(doc) && out.err.None? ==> Consistent(out.doc)
  {
    var iban := StripSpace(creditorIban);
    if !Iban.IsValid(iban) {
      return Outcome(doc, Some(InvalidCreditorIban));
    }
    if DecimalsNumber(amount) > 2 {
      return Outcome(doc, Some(TooManyDecimals));
    }
    var tx := DebitTransaction(id, Money(amount, currency), mandateId, signatureDate, bic,
                              creditorName, iban, description);
    var control, err := Post(doc.control, amount);
    out := Outcome(doc.(transactions := doc.transactions + [tx], control := control), err);
    if Consistent(doc) && err.None? {
      AppendKeepsConsistent(doc, out.doc, tx);
    }
  }

  /** A line item appended with a successful posting of its amount keeps the document
      consistent. */
  lemma AppendKeepsConsistent(doc: DirectDebit, doc': DirectDebit, tx: DebitTransaction)
    requires Consistent(doc) && IsCentAmount(tx.amount.amount)
    requires doc'.transactions == doc.transactions + [tx]
    requires Posted(doc.control, doc'.control, None, AmountCents(tx.amount.amount))
    ensures Consistent(doc')
  {
    AmountsSnoc(doc.transactions, tx);
    PostSettles(doc.control, doc'.control, Amounts(doc.transactions), tx.amount);
  }
}
