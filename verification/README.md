# gosepa in Dafny

This project models the core of gosepa, a Go library that builds SEPA payment files (ISO 20022
XML documents). The model has three parts:

- **The IBAN check.** This is the MOD 97-10 check of ISO 13616-1 and ISO/IEC 7064. The library has
  three identical copies of it: `lib.IsValid`, `model.IBAN.IsValid` and `sepa.IsValid`.
  - `Iban.IsValid` is the function form. It is proved equal to a reference statement and to a
    streaming remainder-97 fold.
  - `ModelIban.IsValid` is the big-integer loop as the source writes it. It is proved to agree with
    `Iban.IsValid` on every string.
  - The copy in `sepa/main.go:152-172` has the same body, so `Iban.IsValid` stands for it too.
- **The amount conversions** `DecimalsNumber`, `ToCents` and `ToEuro` (module `Convert`). A float
  amount is represented by its shortest decimal rendering, the text `strconv.FormatFloat(f, 'f',
  -1, 64)` produces, and every conversion works on decimal text:
  - `DecimalsNumber` counts the digits after the '.'.
  - `ToCents` pads to two decimals, deletes the '.' and parses a signed 64-bit integer.
  - `ToEuro` puts a '.' before the last two characters of an integer's text and parses that.

  The source's `int64` addition is written out as 64-bit wrap-around (`Wrap64`). Control sums are
  held as exact cents. The local copies in `sepa/main.go:174-196` have the same bodies as the
  `lib` functions, so `Convert` stands for them too.
- **The three document builders**, each in its own module: `Transfer` (`CreditTransfer`,
  pain.001.001.03), `Debit` (`DirectDebit`, pain.008.003.02) and `Legacy` (the older
  `sepa.Document`). Each document is an immutable record. `InitDoc` is a function and
  `AddTransaction` is a method, and both return the document after the call together with the
  error it reported (`Outcome`).
  - A check that fails returns the document unchanged.
  - A conversion that returns an error after the line item was appended leaves the appended item
    and the raised counts in place, as the source does.
  - A new cumulus of 0..9 cents makes the source's `ToEuro` panic on a slice bound. The model
    returns the error `CumulusOutOfRange` there instead, with the state a recovered panic would
    leave: the item appended, the counts raised and the sums unchanged.
  - `Ledger` holds the bookkeeping the three builders share: the two counts, the two control sums,
    the posting of one amount (`Post`), and the invariant that the counts are the number of line
    items and the sums are the 64-bit running total (`Settled`).

Dates are checked in the source by `time.Parse` with a fixed layout. Here they are a parameter: a
pair of predicates (`Common.Layouts`) for the date-time layout "2006-01-02T15:04:05" and the date
layout "2006-01-02".

White space is removed from IBANs by `strings.Join(strings.Fields(s), "")`. This is modelled by
`Text.StripSpace`, with Go's `unicode.IsSpace` written out as an explicit list of characters.

Go's `len` counts bytes, while the IBAN loop ranges over runes. The model counts characters, and
the verdict is the same for every input: any character outside 'A'–'Z', '0'–'9' and ' ' makes
the check return false, whichever way the length was counted.

The legacy builder's test session (`sepa/main_test.go:45-126`) is replayed in `LegacyScenario`.
It initialises the document twice with success, and `InitDoc` appends address lines there.
The document therefore ends with four postal address lines, two of them empty. The test also
passes its BIC where `AddTransaction` expects the description, and its description where it
expects the BIC. Both facts are proved in `LegacyScenario`. The byte-exact XML fixture of that
test shows two address lines and the BIC in its own element, so it differs from the document the
calls build.

## Model

| member | source | states |
|---|---|---|
| Iban.RotatePreservesAllowed | lib/helper.go:33-43 | The rotated string holds only tolerated characters exactly when the original does, so the loop's character test over the rotated string is a test of the raw string. |
| Iban.StepIsHorner | lib/helper.go:34-44 | One loop turn on a tolerated character appends that character's digits to the accumulator: two digits (v-'A'+10)/10 and %10 for a letter, one for a digit, none for a space. |
| Iban.AccumulateIsHorner | lib/helper.go:33-45 | The loop finishes exactly when every character is 'A'–'Z', '0'–'9' or ' '. It then holds the numeral spelled by the digit expansion of the rotated string. |
| Iban.IsValidMeaning | lib/helper.go:27-47 | `IsValid` holds iff three things hold: the length is within [4,34], every character is tolerated, and the numeral of the rotated expansion leaves remainder 1 modulo 97. It is false for every length outside [4,34] and for every string holding another character. |
| Iban.Fold97IsRemainder | lib/helper.go:37-46 | The running fold (acc*10+d) % 97 over a digit string equals the remainder of its whole numeral. |
| Iban.RejectedCharacter | lib/helper.go:42-43 | A character outside 'A'–'Z', '0'–'9' and ' ' anywhere in the rotated string makes the check false, lower-case letters and punctuation included. |
| Iban.Remainder97 | lib/helper.go:33-45 | One pass reports whether every character is tolerated and, when so, the remainder modulo 97 of the numeral of the string's digit expansion, while keeping the running value below 97. |
| Iban.CheckStreaming | lib/helper.go:27-47 | A single pass with the remainder kept below 97 returns the same verdict as `IsValid` on every input. |
| Iban.SpaceAfterHead | lib/helper.go:30-41 | A space inserted after the first four characters adds no digit but counts toward the length. The result is valid iff the original is valid and still at most 34 characters long with the space. |
| ModelIban.IsValid | model/model.go:27-47 | The big-integer loop of `IBAN.IsValid` returns `Iban.IsValid(b)` for every string, so the two copies agree. True implies a length within [4,34] and only tolerated characters. |
| IbanVectors.ValidFrance | sepa/main_test.go:68 | FR1420041010050500013M02606 is valid. |
| IbanVectors.ValidBritain | sepa/main_test.go:98 | GB29NWBK60161331926819 is valid. |
| IbanVectors.ValidAustria | sepa/main_test.go:99 | AT611904300234573201 is valid. |
| IbanVectors.ValidBelgium | sepa/main_test.go:100 | BE62510007547061 is valid. |
| IbanVectors.ValidBulgaria | sepa/main_test.go:101 | BG80BNBG96611020345678 is valid. |
| IbanVectors.ValidEstonia | sepa/main_test.go:102 | EE382200221020145685 is valid. |
| IbanVectors.InvalidCountryCode | sepa/main_test.go:78 | ZZ382200221020145685 is invalid. |
| Text.StripSpace | sepa/credit_transfer.go:59 | Joining the white-space separated fields with nothing between them equals dropping every white-space character and keeping the others in order. |
| Text.StripSpaceProperties | sepa/credit_transfer.go:95 | The stripped IBAN holds no white space and is no longer than the input. Stripping is idempotent, distributes over concatenation and leaves a space-free string unchanged. |
| Text.StripSpaceDropsSpace | sepa/direct_debit.go:101 | A white-space character between two parts disappears from the stripped text. |
| Convert.DecimalsNumberSpec | lib/convert.go:9-16 | Without a '.' the count is 0. Otherwise it is the length of the text between the first '.' and the next '.' or the end. |
| Convert.DecimalsOfRendering | lib/convert.go:9-16 | On a float's shortest rendering, `DecimalsNumber` is the number of fraction digits. |
| Convert.DecimalsIgnorePrefix | lib/convert.go:11-15 | Text before the first '.', such as a sign and the integer digits, does not change the count. |
| Convert.DecimalsNumberVectors | sepa/main_test.go:29-35 | 0→0, 123→0, 144.2→1, 1.123456789→9, 3.14159→5, -1250→0 and -252123.123→3. |
| Convert.ParseRender | lib/convert.go:10 | Parsing a rendering into sign, integer digits and fraction digits inverts rendering, and the result is a rendering. |
| Convert.DeleteFirstDot | lib/convert.go:21 | The result is the text with its first '.' removed: putting the '.' back at that index restores the input, and text without '.' is unchanged. |
| Convert.ParseInt | lib/convert.go:22 | A parsed value always fits a signed 64-bit integer. An empty text, or one that starts with neither a digit nor a sign, is an error. |
| Convert.ParseIntSigned | lib/convert.go:22 | An optional '-' followed by digits parses to the signed value of the digits when it fits 64 bits, and to an error otherwise. |
| Convert.FormatInt | lib/convert.go:27 | The text starts with '-' exactly for negative values, and the rest is the canonical numeral of the magnitude. It is shorter than two characters exactly for 0..9. |
| Convert.ParseIntFormatInt | lib/convert.go:22-27 | Parsing the text of any signed 64-bit integer gives that integer back. |
| Convert.PadValue | lib/convert.go:20-22 | The integer digits followed by the fraction padded to two digits spell \|I\|·100 + FF. |
| Convert.FixedTwo | lib/convert.go:20 | For an amount with at most two decimals, the two-decimal text has exactly two decimals. Deleting its '.' and parsing gives the amount's exact cents, or an error when they do not fit 64 bits. |
| Convert.ToCents | lib/convert.go:19-23 | For an amount with at most two decimals, `ToCents` returns its exact value in cents, sign·(\|I\|·100+FF). It returns an error exactly when that value does not fit 64 bits. |
| Convert.TwoPlaces | sepa/credit_transfer.go:118 | The two-decimal text of a control sum of c cents has exactly two decimals, and `ToCents` reads it back as c, or as an error when c does not fit 64 bits. |
| Convert.Wrap64 | sepa/credit_transfer.go:123 | The 64-bit sum of two cents values lies in the signed 64-bit range and is the exact sum whenever that fits. |
| Convert.Wrap64Congruent | sepa/credit_transfer.go:123 | The wrapped value differs from the exact one by a multiple of 2^64, and it is the only 64-bit value that does. |
| Convert.EuroText | lib/convert.go:27-29 | For \|i\| >= 10 the euro text is a float literal with exactly two digits after the '.', and deleting the '.' gives back the text of i. |
| Convert.EuroTextNegativeDigit | lib/convert.go:28-29 | For -9..-1 the text is ".-k", which is not a float literal. |
| Convert.ToEuroSpec | lib/convert.go:26-30 | `ToEuro` fails with the slice-bounds case exactly for 0..9 and with a parse error exactly for -9..-1. Otherwise its text has two decimals and deleting its '.' gives back the text of i. |
| Convert.EuroRoundTrip | lib/convert.go:19-30 | For every 64-bit i with \|i\| >= 10, the euro text converts, and deleting its '.' and parsing gives i again, so the next `ToCents` of the stored sum reads back the same cents. |
| Ledger.SumToCents | sepa/credit_transfer.go:118-121 | Converting the stored group-header sum back to cents gives it unchanged, or an error when it does not fit 64 bits. |
| Ledger.CumulusToEuro | sepa/credit_transfer.go:123-126 | The new cumulus fails to convert with the out-of-range error exactly for 0..9 and with the parse error exactly for -9..-1. It succeeds exactly when \|total\| >= 10. |
| Ledger.PostCents | sepa/credit_transfer.go:111-129 | Both counts rise by one whatever happens next. Each error holds exactly under its condition, in order: amount out of 64 bits, then control sum out of 64 bits, then a 64-bit total within nine cents of zero. On success both sums become the 64-bit total; on a late error both sums keep their old values. |
| Ledger.Post | sepa/credit_transfer.go:111-129 | The same bookkeeping, starting from the amount's text: the amount is converted with `ToCents` and its exact cents are posted. |
| Ledger.WrapAdd | sepa/credit_transfer.go:123 | Adding an amount to a wrapped running total gives the same 64-bit value as wrapping the exact total, so the mirrored sums track the exact running total modulo 2^64. |
| Ledger.PostKeepsBalance | sepa/credit_transfer.go:111-129 | Raising both counts by one and setting both sums to the 64-bit total keeps counts equal to the number of items and sums equal to the running total. |
| Ledger.LateFailureCountsAsZero | sepa/direct_debit.go:108-133 | After a late conversion failure, the counts are one ahead while the sums are stale. The control block is balanced as if the new item were worth 0, and balanced over its real cents only when they do not change the 64-bit total. |
| Ledger.PostSettles | sepa/credit_transfer.go:102-129 | A successful posting of one more amount keeps the control block settled over the longer list of amounts. |
| Transfer.InitDoc | sepa/credit_transfer.go:57-90 | Each date or IBAN error is reported exactly under its condition, in this order: creation date-time, execution date, then the stripped emitter IBAN. The call succeeds exactly when all three checks pass. On any error the document is unchanged. On success the following hold. TRF, SEPA, SLEV, "true", DebitorID DE79ZZZ00000628465 and the pain.001.001.03 namespace and location are set. Both emitter names are the given name. The address is exactly [street, city]. The stored IBAN is the stripped, valid one. Transactions and control are never touched. |
| Transfer.InitDocIdempotent | sepa/credit_transfer.go:86-88 | Because the address is replaced rather than extended, repeating an identical `InitDoc` changes nothing. |
| Transfer.AddTransaction | sepa/credit_transfer.go:93-131 | An invalid stripped creditor IBAN, and then an amount with more than two decimals, are rejected exactly under their conditions, with the document unchanged. Otherwise one item is appended at the end, with InstrId = EndToEndId = id and the stripped IBAN. Nothing else changes but the control block, which is posted as in `Ledger.Post`. A successful call keeps a consistent document consistent. |
| Transfer.AppendKeepsConsistent | sepa/credit_transfer.go:102-129 | Appending an item whose amount was posted successfully keeps both counts equal to the number of items and both sums equal to their running total. |
| Debit.InitDoc | sepa/direct_debit.go:54-96 | The same error order and the same untouched document on error. The call succeeds exactly when the two dates and the stripped IBAN pass. On success the following hold. DD, "true", SEPA, CORE, FRST, Prtry SEPA and the pain.008.003.02 namespace and location are set. PaymentEmitterID is emitterID. Both names are the given name. The address is exactly [street, city]. The IBAN is the stripped form. Transactions and control are untouched. |
| Debit.InitDocIdempotent | sepa/direct_debit.go:87-89 | Repeating an identical `InitDoc` changes nothing. |
| Debit.AddTransaction | sepa/direct_debit.go:99-138 | The IBAN and decimals rejections hold exactly under their conditions and leave the document unchanged. Otherwise one item is appended at the end, with EndToEndId = id, the mandate id and signature date verbatim, and the stripped IBAN. The control block is posted, and a successful call keeps a consistent document consistent. |
| Debit.AppendKeepsConsistent | sepa/direct_debit.go:108-136 | Appending an item whose amount was posted successfully keeps the counts and sums in step with the items. |
| Legacy.InitDoc | sepa/main.go:59-90 | The same error order, but the emitter IBAN is checked and stored verbatim, spaces included. The call succeeds exactly when the two dates and that IBAN pass. On error nothing changes. On success TRF, SEPA, SLEV, "true", CORE and the pain.001.001.03 namespace and location are set, and the address grows by exactly [addr1, addr2]. |
| Legacy.InitDocTwiceRepeatsAddress | sepa/main.go:87-88 | A second identical successful `InitDoc` appends the two address lines again, and nothing else differs. |
| Legacy.AddTransaction | sepa/main.go:93-131 | The creditor IBAN is checked as given. The IBAN and decimals rejections hold exactly under their conditions and leave the document unchanged. Otherwise one item is appended, with InstrId = EndToEndId = id and regulatory code "150"; the description parameter comes before the BIC. The control block is posted, and a successful call keeps a consistent document consistent. |
| Legacy.AppendKeepsConsistent | sepa/main.go:101-129 | Appending an item whose amount was posted successfully keeps the counts and sums in step with the items. |
| LegacyScenario.InitSession | sepa/main_test.go:50-75 | The test's five `InitDoc` calls report a bad creation date, a bad execution date, an invalid IBAN, then two successes. The document keeps the last call's header fields and four address lines. |
| LegacyScenario.RejectSession | sepa/main_test.go:77-85 | The ZZ IBAN and the amount 1.234 are rejected with their own errors, and the document is unchanged. |
| LegacyScenario.Accept | sepa/main.go:93-131 | A line with a valid IBAN and an amount of at most two decimals worth 10000 to 70000 euros, added to a document whose sums are equal and at most 1000000 euros, is accepted. Its item is appended and its cents are added to both sums. |
| LegacyScenario.AddLine | sepa/main_test.go:108-126 | The k-th fixture transfer is accepted and appended as its line item. Both counts become k+1 and both sums become the running total of the first k+1 amounts. |
| LegacyScenario.AddSession | sepa/main_test.go:97-126 | After the five fixture transfers both counts are 5 and both sums are 17000000 cents (170000 euros). The items are in fixture order. The first item carries "Cables" as its BIC and "BKAUATWW" as its remittance text. |

## Left out

- XML serialisation (`Serialize`, `PrettySerialize`, the struct tags and attribute order) is not modelled. It is a thin wrapper over `encoding/xml`, which is not part of this model.
- Float formatting and parsing are not modelled bit for bit. Amounts enter as their shortest decimal rendering, and sums are exact integer cents. NaN and the infinities are not modelled.
- Convert.ToCents: the cents are read from the shortest rendering. From about 2^46 euros on, the spacing of float64 values exceeds a cent, and `FormatFloat(f, 'f', 2, 64)` rounds the exact binary value instead. For f = 2^46 + 0.09375 the shortest rendering is "70368744177664.1", so the model gives 7036874417766410 cents where the source gives 7036874417766409.
- Ledger.SumToCents: the stored control sum is exact cents. The source stores a float64, whose two-decimal text matches those cents only below about 2^46 euros.
- Ledger.Post: the two counts are unbounded integers. Go's `int` would wrap after 2^63 increments.
- Convert.ToEuroSpec: for 0..9 the source panics on a slice bound (`lib/convert.go:28`). The model returns the error `CumulusOutOfRange` instead.
- Ledger.CumulusToEuro: for a new cumulus of 0..9 cents the source panics inside `ToEuro`. The model returns the error `CumulusOutOfRange` instead.
- Ledger.PostCents: for a 64-bit total of 0..9 cents the source panics and never returns. The model returns `CumulusOutOfRange` with the state a recovered panic would leave: the item appended, the counts raised and the sums unchanged. `Ledger.Post`, `LateFailureCountsAsZero` and the three `AddTransaction` methods inherit this.
- Convert.ToEuroSpec: only the float-literal syntax that the euro text can take (sign, digits, one '.') is modelled, not the rest of `strconv.ParseFloat`. The parsed float is not modelled beyond the text it reads.
- Date validation via `time.Parse` is a parameter (`Layouts`), because the calendar rules live in Go's time package.
- `tests/usage.go`, the constructors it calls and the `decimal.Decimal` amount type of `model/model.go` are not part of this model. The rest of `model/model.go` is data only.
- The package declares `TAmount` twice and names the direct-debit root element "document". These are not reconciled: the three builders are independent modules.
- The 180-amount cumulus test (`sepa/main_test.go:8-22`) is not replayed. That after every success the sums equal the 64-bit running total, which is the exact total while it fits in int64, is proved for all inputs (`AppendKeepsConsistent` in each builder).
