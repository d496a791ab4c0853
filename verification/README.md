# Verified model of the ERP core

A Dafny model of the parts of the elevator company's ERP where money, text or
concurrent requests have to agree with a simpler truth, and proofs that they
do. `dafny verify dfyconfig.toml` checks the whole project.

| Part | Modules | What is proved |
|---|---|---|
| Pricing formulas | `FormulaLexer`, `FormulaReading`, `FormulaGrammar`, `FormulaEvaluator`, `FormulaMeaning`, `FormulaNames`, `FormulaPrinter`, `FormulaPrinting`, `FormulaRoundTrip`, `FormulaReprint`, `FormulaValidity` | the one-pass evaluator computes the value of the one parse tree, part by part the arithmetic written; a printed formula is a formula again, and exactly when it reads back as the same one and prints again as the same text |
| Price calculator | `Calculator`, `StarterFormula`, `Quotations` | exactly which requests are quoted, and the price from the request, the lift and the product; typed overrides never change it; the breakdown adds up |
| Receivables | `Receivables`, `ReceivablesInvariant`, `ReceivablesBook`, `ReceivablesRequests`, `CustomerBalance`, `CustomerStatement`, `LedgerAgreement` | what every run of transactions keeps; when the balance, the statement and the aging report agree |
| Invoice transactions | `InvoiceProtocol`, `LockOrder`, `Deadlocks`, `BalanceQueries`, `StoredBalances` | every interleaving under the row locks is serializable; exactly which requests can deadlock; exactly when a stored balance is stale and by how much, and that it heals |
| Idempotency keys | `CanonicalJson`, `Idempotency` | the fingerprint text is injective up to key order; one handler at a time, exact replays |
| CSV | `Csv` | the writer's text reads back; the reader reads every RFC 4180 file |
| Calendar | `Calendar`, `Recurrence`, `WorkingDays`, `DeliveryCountdowns`, `FiscalYears` | no month skipped, inverse laws, closed forms, partitions |
| Contracts | `Instalments`, `Contracts` | schedules add up to the cent and freeze at signing |
| VAT on expenses | `VatSplit` | split and round-trip laws |
| Numbering | `Numbering` | gapless under rollbacks; printed numbers are distinct |
| Reversal ledgers | `ReversalLedgers` | one mirror per row, totals are those of the live rows |
| Last administrator | `LastAdmin` | never zero administrators, in any interleaving |
| Word image cache | `EncodeCache` | byte budget, one encode in flight, hits are sound |

`Wrappers`, `Text`, `Decimals`, `Rounding` and `Sums` are shared.

How the source is modelled: money is whole cents, or exact reals where the
source keeps a decimal unrounded; dates are Gregorian dates or day numbers; a
row's id is its position. A repository or service whose methods update rows or
fields is a class whose methods are proved against a specification function,
and the same function is what the lemmas about runs and interleavings use.
Interleavings are sequences of steps (begin, lock, read or check, query,
commit, abort), each seeing the rows committed by then; an advisory lock is held until
its transaction ends. Every lemma carries `{:induction false}`, so that each
induction is written out.

## What the code does not do

Each of these is a lemma with the input, and next to it the exact condition
under which the code does what it says.

- A printed formula "stays a valid formula" (`src/common/formula.ts:441-448`) as
  far as its grammar goes: it has a tree exactly when the formula has one
  (`PrintedHasATreeIff`). It need not be the same formula: a figure of 1,000 or
  more directly in a function's arguments prints a comma that reads back as an
  argument separator, and a negative figure reads back as a sign and a number
  (`PrintingKeepsTokens` is the exact condition,
  `GroupingCommaChangesTheValue` the input); such a text does not print as
  itself again either (`PrintingTwice`). And it can pass the 500-character
  limit, so that it is refused (`PrintingKeepsTheValue`, `BTooLong` the input).
- The starter formula divides the load by the product's load step, which the
  comment at `src/modules/elevator-calc/calc-math.ts:30-31` leaves out
  (`DefaultPrices`).
- `PaymentsRepository.allocate` accepts a payment that has already been
  reversed. From then on the statement and the stored balance of that customer
  differ by the amount: `StatementAgrees` (exactly when),
  `LateAllocationSplitsTheViews` (the run).
- An invoice whose total is zero, which free lines make, is issued as ISSUED
  although the derivation says PAID (`IssuedAsDerivedIff`). Recording a
  withholding of zero on it makes it PAID, and voiding it is then refused
  (`FreeInvoice`).
- `record` does not lock its invoices in ascending order, as
  `src/modules/payments/payments.repository.ts:275-279` has it, but as the
  request lists them, and two payments can deadlock: exactly when they are
  numbered in different fiscal years and the first invoice each shares with the
  other is not the same (`PaymentsDeadlockIff`, `TwoYearsCanDeadlock` the input).
  Any requests can exactly when their lists of locks cross (`DeadlocksIff`,
  `PairDeadlocksIff` for two). So none do while all receipts are numbered in one
  year, because the series row is locked first (`OneYearNeverDeadlocks`), or
  while every list is ascending (`InOrderNeverDeadlocks`).
- A stored balance "self-heals on the next write" (`src/common/customer-balance.ts:62-67`)
  if what other writes for that customer commit between that write's first query
  and its own commit, in the queries it has already asked, comes to nothing:
  exactly then (`StoredIff`), and so if none commits (`HealsOnTheNextWrite`). It
  is not only the final update that can race, as the comment has it: the four
  queries are four snapshots, and an allocation that leaves the balance where it
  was is seen in part if it commits between the second and the fourth
  (`AllocationIsMissedIff`; `TornRun`, a run that stores too much by its amount;
  `StaleRun`, one that loses a payment).
- A body `null`, no body and `{}` have one fingerprint, and `1e400` prints as
  `null` (`TextForgets`).
- A handler that answers without a body, or outlives the 30-second window, can
  run again for one key (`OverrunsIff`, `BodilessAnswerRunsAgain`,
  `SlowClaimantRunsBeside`).
- An export without columns does not read back (`ExportReadsBack`); a last
  record of one empty field without a line break is dropped, even if it is
  enclosed in quotes (`ReadsAnOpenLastRecord`).
- Clamping to a short month (`src/modules/maintenance/recurrence.ts:10-13`) is
  not undone: a monthly service date keeps the shorter day from the first short
  month on (`ChainKeepsItsDayIff`, `JanuaryDrifts`). Late visits make no
  difference, as the comment at lines 53-57 has it.
- "0 on the day" of a deadline is also the reading on a weekend before a
  deadline on that weekend, with the deadline still ahead (`SignOfBetween`).
- The penalty can pass a cap that is not whole cents by less than half a cent
  (`WithinTheExactCapIff`, `CapCanBePassed`).
- The rounding residual can make the largest instalment negative
  (`TwoCentsInFour`): exactly when the other terms' rounded shares come to more
  than the value (`NegativeLineIff`), and never above n(n - 3)/2 cents
  (`NoNegativeLine`), a bound that is the least for the even n that divide
  10,000 (`TheBoundIsTight`).
- A gross amount split and put together again can be a cent off
  (`ACentCanBeLost`, 4 cents at 15%; exactly when, `GrossComesBackIff`).
- Cancelling a contract does not free its proforma for another, although the
  refusal says "cancel it before issuing another" (`NoSecondContract`).

## Model

| member | source | states |
|---|---|---|
| FormulaLexer.Tokenize | src/common/formula.ts:122-201 | the tokenizer loop returns the tokens of the text, or its first error: a comma is part of a number only outside arguments, units glued to numbers are skipped |
| FormulaLexer.ScanNumber | src/common/formula.ts:135-152 | how far a number runs from its first character, inside and outside arguments |
| FormulaReading.NumeralIff | src/common/formula.ts:153-156 | a text of digits and points is a number if and only if it has a digit and no second point |
| FormulaReading.NumeralMeans | src/common/formula.ts:153-157 | a number is worth the digits before its point and, in tenths, those after it |
| FormulaReading.NegativesMean | src/common/formula.ts:157 | a figure with a sign is worth as much below zero, and zero has none |
| FormulaReading.CommaInNumber | src/common/formula.ts:139-151 | a comma belongs to the number before it exactly outside a function's arguments and before a group of three digits |
| FormulaReading.UnitsAreReadOver | src/common/formula.ts:158-163 | kg, mm, m, ETB and birr glued to a number are read over, in any case and only as whole words; any other word there is a name |
| FormulaReading.SignsAreReadAs | src/common/formula.ts:110-116 | × and ÷ are read as * and /, the minus sign and both dashes as - |
| FormulaReading.PlainSignsAreRead | src/common/formula.ts:172-188 | a bracket opens a function's arguments exactly after a function's name, and any other sign changes no bracket |
| FormulaReading.OthersAreRefused | src/common/formula.ts:190-198 | any other character is refused where it stands |
| FormulaReading.BasePriceIsOneName | src/common/formula.ts:123-124 | base and price are one name, in any case and with any spaces between |
| FormulaGrammar.UniqueTree | src/common/formula.ts:238-333 | a token list has at most one tree of the grammar, and the grammar's parser finds it exactly when there is one |
| FormulaEvaluator.Parser.Parse | src/common/formula.ts:216-227 | the parser object's run on its tokens is the specification run, trailing tokens refused |
| FormulaEvaluator.Parser.Expression | src/common/formula.ts:238-246 | a sum, left-associative, and where the position is left |
| FormulaEvaluator.Parser.Term | src/common/formula.ts:248-273 | products, quotients and juxtaposition at one level, a zero divisor refused |
| FormulaEvaluator.Parser.Unary | src/common/formula.ts:275-285 | signs |
| FormulaEvaluator.Parser.Primary | src/common/formula.ts:287-333 | numbers, names, brackets and calls, and the errors of each |
| FormulaEvaluator.Evaluate | src/common/formula.ts:345-355 | length check, tokenizer and parser together; what the parts are worth is stated by the `FormulaMeaning` rows |
| FormulaEvaluator.RunIsMeaning | src/common/formula.ts:208-342 | the evaluator returns a value exactly when the tokens are those of a tree with that value: it throws exactly when there is no tree or the tree's value is an error |
| FormulaEvaluator.ErrorsOfATree | src/common/formula.ts:84-100 | the only errors of a tree are an unknown name, an empty max or min, and a zero divisor |
| FormulaMeaning.MinAndMaxMean | src/common/formula.ts:81-89 | min is one of its values and at most every one, max one of them and at least every one, for every list but the empty one, which is refused |
| FormulaMeaning.RoundingsMean | src/common/formula.ts:90-94 | floor, ceil, round and abs of the first value, or of 0 without one: the whole number just below, just above, within a half with halves away from zero, and the distance from zero |
| FormulaMeaning.OperatorsMean | src/common/formula.ts:238-285 | the arithmetic of the operators, side by side and signs included, and the zero divisor |
| FormulaMeaning.FirstErrorMeans | src/common/formula.ts:238-273 | of two operands the first without a value is the error |
| FormulaMeaning.ArgsMean | src/common/formula.ts:300-322 | a call's values are its arguments', in order |
| FormulaMeaning.NamesMean | src/common/formula.ts:46-79 | which of the nine figures each name stands for, spelled out, in any case; any other is unknown |
| FormulaMeaning.FromTheLeft | src/common/formula.ts:248-273 | products, quotients and values side by side are taken from the left, with no precedence between them |
| FormulaMeaning.DifferencesMean | src/common/formula.ts:238-246 | so are differences |
| FormulaMeaning.ProductsGoFirst | src/common/formula.ts:238-273 | a product goes before the difference it stands in, on either side |
| FormulaMeaning.SignsMean | src/common/formula.ts:275-285 | a sign belongs to the one value after it |
| FormulaMeaning.LongTextsAreRefused | src/common/formula.ts:344-355 | a text of more than 500 characters is refused, any other is what its tokens come to |
| FormulaMeaning.MalformedMeans | src/common/formula.ts:216-235 | nothing, a bracket too many and a bracket too few, each with its own error |
| FormulaNames.SameRun | src/common/formula.ts:345-355 | token lists that agree name by name and value by value evaluate alike, errors included |
| FormulaNames.RiseIsNotRead | src/common/formula.ts:357-376 | where the token scan finds no name for the rise, no rise can change the formula's value or error |
| Quotations.UsesRiseIff | src/common/formula.ts:357-376 | a formula uses the rise exactly when one of its four names occurs in it |
| FormulaPrinter.Render | src/common/formula.ts:449-497 | the printing loop produces the specified text piece by piece |
| FormulaPrinting.PrintsPieces | src/common/formula.ts:449-497 | a formula prints token by token, each piece's text by its own figure, name or sign, and exactly where a space stands |
| FormulaPrinting.FiguresAre | src/common/formula.ts:435-440 | a figure prints as its sign, its digits and what follows the point |
| FormulaPrinting.GroupsAreOfThree | src/common/formula.ts:438 | a comma stands before every third digit from the right and nowhere else |
| FormulaRoundTrip.PrintedReadsAs | src/common/formula.ts:435-497 | every printed formula tokenizes, and to which tokens |
| FormulaRoundTrip.PrintingKeepsTokens | src/common/formula.ts:435-497 | the printed text has the same tokens, names replaced by figures, if and only if no figure is negative and none of 1,000 or more sits directly in arguments |
| FormulaRoundTrip.PrintingKeepsTheValue | src/common/formula.ts:435-497 | then it also has the same value, or is refused for its length alone |
| FormulaReprint.PrintingTwice | src/common/formula.ts:448-497 | printing a printed formula gives the same text if and only if no figure in it is negative or, directly in arguments, 1,000 or more |
| FormulaValidity.IsFormulaIff | src/common/formula.ts:238-333 | which token lists have a tree is decided from left to right, by the brackets open and whether an operand has just ended |
| FormulaValidity.PrintedHasATreeIff | src/common/formula.ts:441-448 | a printed text has a tree if and only if the formula has one |
| FormulaReprint.PrintedTooLong | src/common/formula.ts:344-353 | products of 46 to 250 base prices evaluate, and their printed texts are too long to |
| FormulaReprint.BTooLong | src/common/formula.ts:344-353 | such as `b b b ...`, 46 to 250 times |
| FormulaRoundTrip.GroupingCommaChangesTheValue | src/common/formula.ts:435-448 | max(1000) prints as a text whose value is 1 |
| Calculator.OverridesAreNeverPriced | src/modules/elevator-calc/elevator-calc.service.ts:67-152 | two requests that differ only in the seven typed overrides get the same breakdown or the same refusal, half a car aside (`HalfACarIff` says which); what that breakdown is, `Quotations.QuotedAs` and `Quotations.StarterQuotes` say |
| Calculator.TypedOnClassic | src/modules/elevator-calc/elevator-calc.service.ts:365-526 | on a classic request the five overrides of the table's figures change neither the machine nor the price nor the refusal |
| Calculator.TravelIsThreeAndAHalf | src/modules/elevator-calc/elevator-calc.service.ts:528-529 | the derived travel is 3.5 m times the floors, exactly |
| Calculator.SheetFigureIsKept | src/modules/elevator-calc/elevator-calc.service.ts:138-148 | printed net plus printed VAT is the printed list price to the cent, and neither is negative |
| Calculator.TotalIsMarkedUp | src/modules/elevator-calc/elevator-calc.service.ts:147-152 | the total is the net times margin and tax factors, rounded once |
| Quotations.QuotedAs | src/modules/elevator-calc/elevator-calc.service.ts:114-152 | for any formula: the product's own if it has one, else the tenant's, is given the product's figures and the floors and load of the table's lift, or the stops, load and rise typed; what it then gives, with what it gives at the reference load, is the breakdown printed |
| Quotations.StarterQuotes | src/modules/elevator-calc/calc-math.ts:47-83 | under the starter formula the list price printed is base + (stops - refStops) * perStop + (kg - refCapacityKg) / kgStep * perKg of that machine, split, freed of VAT and marked up |
| Quotations.QuotedIff | src/modules/elevator-calc/elevator-calc.service.ts:67-137 | a request is quoted if and only if it names a machine the company sells, no lighter than the product's minimum, and the formula has a value for it that is not negative, and one at the reference load |
| Quotations.RefusedAs | src/modules/elevator-calc/elevator-calc.service.ts:99-112 | what a refusal says before anything is priced, the first thing in the way |
| Quotations.UnpricedAs | src/modules/elevator-calc/elevator-calc.service.ts:115-137 | and of the price: the formula's error, the list price's before the reference's, or that it is negative |
| Quotations.MachineIff | src/modules/elevator-calc/elevator-calc.service.ts:209-440 | the company sells it: a lift of the table with a whole car, or every figure given and within the vehicle's speed, door and shaft |
| Quotations.StandardPrints | src/modules/elevator-calc/elevator-calc.service.ts:255-350 | a standard request prints the table's lift, its speed by the floors, and what was typed over them |
| Quotations.StandardDoor | src/modules/elevator-calc/passenger-table.ts:174-183 | its door is half of what 200 mm leave of a shaft wider than 1,550 mm, else the lift's |
| Quotations.ClassicPrints | src/modules/elevator-calc/elevator-calc.service.ts:394-440 | any other request prints the figures it gives, an escalator no load and a doorless product no door |
| Quotations.TravelPrints | src/modules/elevator-calc/elevator-calc.service.ts:505-526 | a travel typed over it prints unless the formula is on the rise, which prints its own |
| StarterFormula.DefaultPrices | src/common/formula.ts:519-532 | tokenized, parsed and evaluated, the starter's text gives every product the base, its rate per stop over its reference and its rate per load step over its reference capacity, and refuses only a zero load step |
| StarterFormula.StarterSpells | src/common/formula.ts:531-532 | the starter's pieces, one by one |
| StarterFormula.StarterPrices | src/modules/elevator-calc/calc-math.ts:47-83 | so does any text with those tokens, however the eight names are spelled |
| StarterFormula.DefaultReads | src/common/formula.ts:531-532 | the starter's text has one tree, and printing it gives it back |
| ReceivablesBook.Book.RecordPayment | src/modules/payments/payments.repository.ts:269-327 | inserts the payment and its allocations or, on the first refusal, nothing, and returns that refusal; balances stay current |
| ReceivablesBook.Book.GuardAndInsertAllocation | src/modules/payments/payments.repository.ts:644-716 | the guards in order, the row, and the invoice's new status |
| ReceivablesBook.Book.IssueInvoice | src/modules/invoices/invoices.repository.ts:515-586 | a new ISSUED row with the total, nothing else, and the customer's balance recomputed |
| ReceivablesBook.Book.AllocatePayment | src/modules/payments/payments.repository.ts:404-430 | allocating part of an earlier payment |
| ReceivablesBook.Book.ReversePayment | src/modules/payments/payments.repository.ts:483-623 | a negated payment with every allocation mirrored, the original untouched |
| ReceivablesBook.Book.RecordWithholding | src/modules/invoices/invoices.repository.ts:770-837 | sets the withholding within what the invoice has left, and derives the status again |
| ReceivablesBook.Book.MarkVoid | src/modules/invoices/invoices.repository.ts:634-686 | only an ISSUED invoice with no cash and no withholding becomes VOID |
| ReceivablesBook.Book.RecomputePaymentStatus | src/modules/invoices/invoices.repository.ts:992-1040 | VOID stays, every other status is derived from the sums; what it then is, `StatusesSayWhatIsPaid` states in amounts |
| ReceivablesBook.Book.RecomputeBalance | src/common/customer-balance.ts:69-156 | after it, every customer's stored balance is the recomputed one |
| ReceivablesInvariant.ReachableIsValid | src/modules/invoices/invoices.repository.ts:589-686 | in every ledger a run leads to: allocations plus withholding within each total, VOID carries neither, statuses derived, reversals in cancelling pairs |
| ReceivablesInvariant.StatusesSayWhatIsPaid | src/modules/invoices/invoice-payment-status.ts:21-37 | in every run, an invoice with a total that is not VOID is PAID if and only if allocations and withholding come to its total, PARTIALLY_PAID if and only if there is cash and they come to less, ISSUED if and only if there is none and they come to less |
| ReceivablesInvariant.StatusIsWhatIsPaid | src/modules/invoices/invoices.repository.ts:992-1040 | so in any ledger that keeps the invariant |
| ReceivablesRequests.AcceptedIff | src/modules/payments/payments.repository.ts:269-716 | which requests go ahead, each told from sums and amounts: a payment split, an allocation, a reversal, a withholding, a voiding |
| ReceivablesRequests.RecordIff | src/modules/payments/payments.repository.ts:269-327 | a payment is recorded if and only if each part fits its invoice, no invoice is named twice and the parts come to no more than it brings |
| ReceivablesRequests.RefusedAs | src/modules/payments/payments.repository.ts:404-716 | what a refusal says, the first thing in the way |
| ReceivablesRequests.RecordRefusedAs | src/modules/payments/payments.repository.ts:644-716 | a payment is refused for its first part that cannot be placed on those before it, and as that part is |
| ReceivablesRequests.ChangedBy | src/modules/payments/payments.repository.ts:269-716 | the rows an accepted request adds or changes, and no others, but for statuses |
| ReceivablesRequests.DecidesIff | src/modules/payments/payments.repository.ts:644-716 | a transaction that sees every row as it is goes ahead exactly if its request is accepted |
| ReceivablesInvariant.IssuedAsDerivedIff | src/modules/invoices/invoice-payment-status.ts:21-37 | an invoice is issued with the derived status if and only if its total is not zero |
| ReceivablesInvariant.FreeInvoice | src/modules/invoices/invoices.repository.ts:740-837 | a free invoice takes no cash, and a withholding of zero makes it PAID, and voiding it is then refused |
| ReceivablesInvariant.ReverseKeepsValid | src/modules/payments/payments.repository.ts:432-623 | a reversal keeps all of that |
| ReceivablesInvariant.InsertKeepsValid | src/modules/payments/payments.repository.ts:644-716 | so does an allocation that passes its guards |
| ReceivablesInvariant.SumByPair | src/common/customer-balance.ts:16-37 | any sum over payments is the sum over originals paired with their reversals |
| CustomerBalance.RecomputeCustomerBalance | src/common/customer-balance.ts:69-156 | the queries and folds give outstanding invoices less unapplied live payments |
| CustomerBalance.RecomputedIsBalance | src/common/customer-balance.ts:110-127 | reversals looked for among the customer's own payments are all there are, so that is the balance |
| CustomerBalance.AgingReport | src/modules/invoices/invoices.repository.ts:867-978 | each customer's buckets are the sums of what is still owed by days overdue, and only customers who owe are listed |
| CustomerBalance.BucketLimits | src/modules/invoices/invoice-aging.ts:27-33 | which days past due fall into each bucket, and that an invoice due on no date is in the first |
| CustomerBalance.AgedLessBalanceIsUnapplied | src/modules/invoices/invoices.repository.ts:867-978 | in every reachable ledger the aged total less the balance is exactly the unapplied cash, never negative |
| CustomerStatement.BuildStatement | src/modules/customers/customer-statement.ts:76-124 | the filters and loops over the sorted copy give the specified lines, opening and closing; `LinesAreTheRows` says what those are |
| CustomerStatement.LinesAreTheRows | src/modules/customers/customer-statement.ts:94-124 | the lines are the source rows dated from..to, each as often as it occurs and in order of date, kind and id, and each with its own kind, date and id, its amount in debit if it is an invoice or negative, else in credit, and the balance up to it |
| CustomerStatement.SourceRowsAre | src/modules/customers/customers.repository.ts:463-507 | the source rows are the customer's invoices that are not VOID, its payments, and what was withheld, each on its own date |
| CustomerStatement.SortedIsSorted | src/modules/customers/customer-statement.ts:52-66 | the lines come in order of date, kind and id, and none is lost or added |
| CustomerStatement.ClosingIsUpTo | src/modules/customers/customer-statement.ts:67-124 | the closing balance is everything dated up to the last day, whatever the row order |
| CustomerStatement.PeriodsChain | src/modules/customers/customer-statement.ts:67-124 | adjacent periods chain closing to opening |
| CustomerStatement.ColumnsAddUp | src/modules/customers/customer-statement.ts:76-124 | opening plus debits less credits is the closing, which is the last line's balance, and no figure of either column is negative |
| CustomerStatement.StatementAgainstBalance | src/modules/customers/customers.repository.ts:441-514 | the all-time statement closes above the balance by exactly what dead payments still have allocated |
| LedgerAgreement.StatementAgrees | src/modules/customers/customers.repository.ts:441-514 | over every run, statement and balance agree if and only if no payment of the customer was allocated after its reversal, and differ by that cash otherwise |
| LedgerAgreement.LateAllocationSplitsTheViews | src/modules/payments/payments.repository.ts:404-430 | the accepted run that leaves them apart |
| InvoiceProtocol.Decided | src/modules/payments/payments.repository.ts:644-716 | deciding from views that are still current, and committing, is the sequential transaction |
| InvoiceProtocol.RecordDecided | src/modules/payments/payments.repository.ts:269-327 | the same for a payment recorded with any number of allocations |
| InvoiceProtocol.ReverseDecided | src/modules/payments/payments.repository.ts:483-623 | the same for a reversal |
| InvoiceProtocol.CommitLeavesAlone | src/modules/invoices/invoices.repository.ts:1042-1050 | a commit changes nothing that is read of a row it has not locked |
| InvoiceProtocol.ExecutionsAreSerial | src/modules/invoices/invoices.repository.ts:589-633 | in every interleaving the committed ledger is the one the committed requests leave one after the other, in commit order |
| ReceivablesRequests.SequenceIsAnExecution | src/modules/payments/payments.repository.ts:269-327 | and whatever requests come one after the other, some execution of locks, reads and commits leaves the ledger they leave |
| InvoiceProtocol.InterleavingsKeepInvoices | src/modules/invoices/invoices.repository.ts:589-686 | so every committed invoice keeps 0 <= cash and cash + withholding <= total, VOID has neither, and any other with a total is PAID, PARTIALLY_PAID or ISSUED exactly as its cash and its withholding come to it, to part of it with cash, or to less without |
| InvoiceProtocol.WithoutTheLock | src/modules/invoices/invoices.repository.ts:590-633 | without the lock an allocation and a void both go ahead and leave a VOID invoice with live cash |
| LockOrder.ExecutionsAreOwned | src/modules/payments/payments.repository.ts:275-321 | in every interleaving a lock is owned by the active transaction that has taken it, and every transaction owns what it has taken |
| LockOrder.TakesIff | src/modules/payments/payments.repository.ts:275-321 | which locks each request takes |
| LockOrder.OneYearNeverDeadlocks | src/modules/payments/payments.repository.ts:490-548 | with all receipts numbered in one fiscal year no transactions wait for each other, in whatever order they list their invoices |
| LockOrder.OneYearGoesOn | src/modules/payments/payments.repository.ts:275-279 | so some transaction under way can always go on |
| LockOrder.InOrderNeverDeadlocks | src/modules/payments/payments.repository.ts:532-548 | with all invoice lists ascending none wait for each other either, over any years |
| LockOrder.OneGoesThrough | src/modules/payments/payments.repository.ts:275-321 | a transaction nobody is in the way of takes its locks in their order, and gives them all back |
| Deadlocks.DeadlocksIff | src/modules/payments/payments.repository.ts:275-321 | requests can all wait for each other, in some execution of them, if and only if their lists of locks can be cut so that no two hold one lock and each next lock is held by another |
| Deadlocks.WaitingCross | src/modules/payments/payments.repository.ts:532-548 | in any execution, whatever else is under way, transactions that wait for each other stand at such a cut |
| Deadlocks.PairDeadlocksIff | src/modules/payments/payments.repository.ts:532-548 | two requests can if and only if the first lock of each list that the other takes too is not the same |
| Deadlocks.PaymentsDeadlockIff | src/modules/payments/payments.repository.ts:311-321 | two payments can if and only if they are numbered in different years and the first invoice each shares with the other differs |
| Deadlocks.TwoYearsCanDeadlock | src/modules/payments/payments.repository.ts:311-321 | such as [i, j] against [j, i] around a year's end |
| BalanceQueries.BalanceIsQueried | src/common/customer-balance.ts:69-149 | the four queries asked at one instant come to the balance |
| BalanceQueries.InvoicedMoves | src/common/customer-balance.ts:74-108 | whatever is committed when each is asked, the first two queries come to what they find committed and what the transaction itself bills and allocates, told from the rows it has locked |
| BalanceQueries.OnAccountMoves | src/common/customer-balance.ts:112-147 | and the last two to what they find and what it pays in and allocates |
| BalanceQueries.BalanceMoves | src/common/customer-balance.ts:69-156 | a request moves the balance of its own customer by an amount told from the rows it has locked, and nobody else's |
| StoredBalances.FigureMoves | src/common/customer-balance.ts:69-149 | the figure of four queries at four instants is what they found committed and the transaction's own move |
| StoredBalances.FigureAtOnce | src/common/customer-balance.ts:57-61 | with all four at one instant it is the balance the transaction leaves |
| StoredBalances.CommitMisses | src/common/customer-balance.ts:62-67 | how far a commit between the queries sets them apart from the balance, by what it bills, allocates and pays in the queries already asked |
| StoredBalances.AllocationIsMissedIff | src/common/customer-balance.ts:62-67 | an allocation of a live payment to an invoice, both among those the queries returned, moves no balance, and is missed exactly if it commits after the second query and before the fourth |
| StoredBalances.StoredIff | src/common/customer-balance.ts:62-67 | in every interleaving of the queries a committed write leaves its customer's stored balance right if and only if what the commits since its first query moved in the queries already asked comes to nothing, else off by just that, which is the four sums now less the four sums as read |
| StoredBalances.StaysUntilTheNextWrite | src/common/customer-balance.ts:62-67 | until the next write for that customer commits it stays right, or stale |
| StoredBalances.HealsOnTheNextWrite | src/common/customer-balance.ts:62-67 | a write with no other commit for that customer from its first query to its own leaves it right, however stale it was |
| StoredBalances.StaleRun | src/common/customer-balance.ts:62-67 | from any books at rest, a payment and an invoice that overlap, after which the payment is missing from the stored balance |
| StoredBalances.TornRun | src/common/customer-balance.ts:72-140 | from any books at rest that let a payment be allocated, an allocation between two queries of another write, which then stores too much by its amount |
| StoredBalances.TornFromNothing | src/common/customer-balance.ts:72-140 | such a run from the empty books |
| CanonicalJson.PrintDecodes | src/common/idempotency/request-fingerprint.ts:17-28 | a printed value is read back in only one way, whatever may follow it |
| CanonicalJson.SortedIsUnique | src/common/idempotency/request-fingerprint.ts:22-25 | two ascending lists of the same keys are one list |
| CanonicalJson.PrintsTheSameIffSame | src/common/idempotency/request-fingerprint.ts:17-28 | two bodies print the same text if and only if they are equal after permuting keys at every level |
| CanonicalJson.FingerprintTextIsUnambiguous | src/common/idempotency/request-fingerprint.ts:11-15 | for newline-free endpoints the hashed text tells endpoint and body apart |
| CanonicalJson.TextForgets | src/common/idempotency/request-fingerprint.ts:11-15 | null, no body and {} share a text, and so do 1e400 and null |
| CanonicalJson.WordsAre | src/common/idempotency/request-fingerprint.ts:17-28 | the text of each kind of value, down to the characters |
| CanonicalJson.FiguresAre | src/common/idempotency/request-fingerprint.ts:27 | the characters of a number |
| CanonicalJson.ItemsAreJoined | src/common/idempotency/request-fingerprint.ts:18-20 | items stand in brackets with commas between |
| CanonicalJson.EntriesAreJoined | src/common/idempotency/request-fingerprint.ts:21-26 | entries stand in braces in the order of their keys, each its quoted key, a colon and its value |
| CanonicalJson.BeforeIff | src/common/idempotency/request-fingerprint.ts:23 | that order is by the first code unit that differs, a text before its extensions |
| CanonicalJson.UnitIsEscaped | src/common/idempotency/request-fingerprint.ts:24-27 | which code units are escaped, and as what |
| CanonicalJson.EscapedOneByOne | src/common/idempotency/request-fingerprint.ts:24-27 | a surrogate pair stays as it is, and any other unit is escaped by itself |
| Idempotency.IdempotencyKeys.Upsert | src/common/idempotency/idempotency-keys.repository.ts:55-79 | an insert or the takeover of a stale row, and whether it won |
| Idempotency.IdempotencyKeys.ReadBack | src/common/idempotency/idempotency-keys.repository.ts:81-100 | what a request that lost finds: nothing, a conflict, the stored answer, or one in progress |
| Idempotency.IdempotencyKeys.ClaimKey | src/common/idempotency/idempotency-keys.repository.ts:49-102 | the two statements in a row: won, replayed, in conflict or in progress, and the row it leaves |
| Idempotency.IdempotencyKeys.Complete | src/common/idempotency/idempotency-keys.repository.ts:102-110 | stores the answer on the row |
| Idempotency.IdempotencyKeys.Intercept | src/common/idempotency/idempotency.interceptor.ts:58-89 | the handler runs exactly when there is no key or the claim wins, and only then is a row completed |
| Idempotency.WinsIff | src/common/idempotency/idempotency-keys.repository.ts:56-72 | a claim wins if and only if there is no row, or one without a body that is more than 30 seconds old |
| Idempotency.ClaimLeaves | src/common/idempotency/idempotency-keys.repository.ts:58-72 | what a claim writes, and that it leaves every other key alone |
| Idempotency.ToldIs | src/common/idempotency/idempotency-keys.repository.ts:92-100 | a conflict exactly for another fingerprint, else the stored answer if there is a status and a body, else in progress |
| Idempotency.CompleteLeaves | src/common/idempotency/idempotency-keys.repository.ts:102-110 | what an answer writes, and that it leaves every other key alone |
| Idempotency.TrimmedIs | src/common/idempotency/idempotency.interceptor.ts:63-66 | the key is the header without the spaces around it |
| Idempotency.OverrunsIff | src/common/idempotency/idempotency-keys.repository.ts:56-72 | a key held by a live claimant is won again if and only if it has no stored body and is older than the window |
| Idempotency.StepKeeps | src/common/idempotency/idempotency-keys.repository.ts:49-110 | every other step keeps at most one live claimant per key, with its row |
| Idempotency.AtMostOneRuns | src/common/idempotency/idempotency.interceptor.ts:58-89 | with prompt claimants, at most one handler per key at a time and at most one run more than deaths |
| Idempotency.CompletedIsForever | src/common/idempotency/idempotency-keys.repository.ts:102-110 | with prompt claimants, a stored answer never changes |
| Idempotency.RepeatsReplay | src/common/idempotency/idempotency-keys.repository.ts:92-98 | once answered, whoever reads the key from then on replays that answer with the same endpoint and body up to key order, conflicts otherwise, and runs nothing |
| Idempotency.OneGoesThrough | src/common/idempotency/idempotency.interceptor.ts:58-89 | a request for a free key runs its handler, and whoever asks once it has answered is told that answer, or of the conflict |
| Idempotency.ReadersFindARow | src/common/idempotency/idempotency-keys.repository.ts:86-91 | in every run a request that lost its upsert finds a row, so the claim never starts over |
| Idempotency.LateReadReplays | src/common/idempotency/idempotency-keys.repository.ts:81-100 | a request that lost to one still at work and reads after it answered replays that answer |
| Idempotency.DeadClaimIsWinnable | src/common/idempotency/idempotency-keys.repository.ts:14-26 | a key whose claimants all died is free exactly once the window has passed |
| Idempotency.SlowClaimantRunsBeside | src/common/idempotency/idempotency-keys.repository.ts:14-26 | a claimant past the window runs beside a second one |
| Idempotency.BodilessAnswerRunsAgain | src/common/idempotency/idempotency-keys.repository.ts:65-69 | an answer without a body lets the key run again |
| Csv.ParseCsv | src/common/spreadsheet.ts:35-79 | the character loop returns the specified rows |
| Csv.ReadSpreadsheet | src/common/spreadsheet.ts:86-98 | the byte order mark is dropped and more than 500 rows are refused |
| Csv.ReadsEveryFile | src/common/spreadsheet.ts:28-79 | every RFC 4180 file, enclosed or not, CRLF or LF, reads as its records numbered from 1 |
| Csv.ReadsAnOpenLastRecord | src/common/spreadsheet.ts:74-77 | a last record without a line break is read too, unless it is one empty field |
| Csv.StrayCharacters | src/common/spreadsheet.ts:63-72 | outside quotes a carriage return is dropped, and a quote opens quotes in the middle of a field too |
| Csv.WriteCsv | src/common/export/tabular.ts:180-214 | the loop sends the mark, the header line and a line per record, enclosed only where needed |
| Csv.ExportReadsBack | src/common/export/tabular.ts:188-208 | an export reads back as its header and shown cells, numbered from 1, if and only if it has a column |
| Csv.NoFormulas | src/common/export/tabular.ts:64-76 | no cell read outside money columns opens a formula, and only such cells were changed |
| Csv.ExportSays | src/common/export/tabular.ts:188-208 | read again, an export has the headers and in each row every column's value, a money column's as it is and any other that opens a formula behind an apostrophe |
| Csv.FormulaCellIff | src/common/export/tabular.ts:73-76 | a cell opens a formula exactly if =, +, @ or - is the first of it that is no tab or carriage return |
| Recurrence.AdvanceServiceDate | src/modules/maintenance/recurrence.ts:21-51 | one step of the cadence on a mutable date |
| Recurrence.CadencesGo | src/modules/maintenance/recurrence.ts:21-51 | how many days or calendar months each cadence goes |
| Recurrence.StepIsLater | src/modules/maintenance/recurrence.ts:13-51 | a step is later: so many days, or the k-th next month with none skipped and a day no later |
| Recurrence.NextServiceDateAfter | src/modules/maintenance/recurrence.ts:58-68 | the catch-up loop ends on the first date of the chain strictly after the visit |
| Recurrence.NextVisitMeans | src/modules/maintenance/recurrence.ts:58-68 | it is one step on from the schedule, or from a date of the chain that is not after the visit |
| Recurrence.NextVisitIsOne | src/modules/maintenance/recurrence.ts:53-57 | there is only one such date |
| Recurrence.ChainKeepsItsDayIff | src/modules/maintenance/recurrence.ts:53-57 | the chain is on its scheduled day if and only if no month on the way was too short for it |
| Recurrence.JanuaryDrifts | src/modules/maintenance/recurrence.ts:9-18 | 31 January served monthly is on 28 or 29 March |
| Calendar.OrderIsByDayNumber | src/modules/maintenance/recurrence.ts:64-66 | comparing ISO texts compares days |
| Calendar.PlusDaysCounts | src/modules/maintenance/recurrence.ts:27-36 | setUTCDate past the month's end counts days |
| Calendar.CalendarIs | src/modules/maintenance/recurrence.ts:13-18 | the Gregorian calendar's leap years and months, with day 0 on 1 January 1970 |
| Calendar.UtcDate.AddMonths | src/modules/maintenance/recurrence.ts:13-18 | the three setters land on the same day or the month's last |
| WorkingDays.AddWorkingDays | src/common/business-time.ts:35-44 | the loop ends on the closed form |
| WorkingDays.WorkingDaysBetween | src/common/business-time.ts:51-65 | the loop counts working days, and a passed date never reads 0 |
| WorkingDays.WeekdaysAre | src/common/business-time.ts:23-34 | 1 January 1970 is a Thursday, and Monday to Friday are working days |
| WorkingDays.PassedDates | src/common/business-time.ts:51-65 | a passed date reads as many days back as it read ahead, and one at least |
| WorkingDays.CountIsClosed | src/common/business-time.ts:51-65 | counting day by day is the difference of two closed forms |
| WorkingDays.CountingWhatWasAdded | src/common/business-time.ts:34-65 | between(d, add(d, n)) is n |
| WorkingDays.AddingWhatWasCounted | src/common/business-time.ts:34-65 | add(d, between(d, e)) is e for a working day e from d on |
| WorkingDays.CountingIsAdditive | src/common/business-time.ts:51-65 | adjacent spans add up |
| WorkingDays.AddingTwice | src/common/business-time.ts:31-47 | adding m and then n working days adds m + n |
| WorkingDays.SignOfBetween | src/common/business-time.ts:46-54 | negative exactly once passed, 0 exactly while no working day is left |
| DeliveryCountdowns.FirstDue | src/common/delivery-countdown.ts:62-71 | the earliest promise, of equals the first |
| DeliveryCountdowns.PenaltyIffOverdue | src/common/delivery-countdown.ts:58-90 | days left are negative exactly when a penalty shows, exactly after the due date |
| DeliveryCountdowns.PenaltyIs | src/common/delivery-countdown.ts:72-90 | days late times the agreed percentage of the value, 0.02% where none is agreed, and no more than an agreed cap, to the cent |
| DeliveryCountdowns.FullPeriodOnSigning | src/common/delivery-countdown.ts:58-90 | on the day it is signed a contract has its whole delivery period left and no penalty |
| DeliveryCountdowns.PenaltyNeverFalls | src/common/delivery-countdown.ts:72-90 | the penalty never falls as days go by |
| DeliveryCountdowns.PenaltyIsCapped | src/common/delivery-countdown.ts:73-81 | it stays within the cap rounded to the cent |
| DeliveryCountdowns.WithinTheExactCapIff | src/common/delivery-countdown.ts:78-90 | it stays within the exact cap on every day if and only if that cap does not round up |
| DeliveryCountdowns.CapCanBePassed | src/common/delivery-countdown.ts:78-90 | 5% a day on 100.51, capped at 5%, prints a penalty above 5% |
| FiscalYears.BoundaryIff | src/common/fiscal-year.ts:25-43 | a boundary is any day some year has |
| FiscalYears.YearsPartitionDates | src/common/fiscal-year.ts:25-43 | a date is within its own fiscal year and no other |
| FiscalYears.YearsTile | src/common/fiscal-year.ts:25-43 | each year starts the day after the one before it ends |
| FiscalYears.StartExistsIff | src/common/fiscal-year.ts:33-40 | the start is a real date in every year if and only if the boundary is not 29 February |
| Instalments.InstalmentsFromPercents | src/modules/contracts/instalment-schedule.ts:70-99 | a schedule if and only if there are terms and their percentages make 100%; then one line per term with its caption, the lines total the value, the largest percentage's within half a cent per other line and every other within half a cent |
| Instalments.SchedulesIff | src/modules/contracts/instalment-schedule.ts:74-99 | the same of the schedule a contract is issued with |
| Instalments.TotalsAreSums | src/modules/contracts/instalment-schedule.ts:14-57 | the totals compared are the plain sums of the percentages and of the amounts |
| Instalments.ScheduleAddsUp | src/modules/contracts/instalment-schedule.ts:59-99 | the lines total the value to the cent; each is within half a cent, the largest within half a cent per other line |
| Instalments.NegativeLineIff | src/modules/contracts/instalment-schedule.ts:65-99 | a line is negative if and only if the other terms' rounded shares come to more than the value |
| Instalments.NoNegativeLine | src/modules/contracts/instalment-schedule.ts:65-68 | no line is negative above n(n - 3)/2 cents for n terms |
| Instalments.TheBoundIsTight | src/modules/contracts/instalment-schedule.ts:65-68 | at exactly n(n - 3)/2 cents an even number of equal whole percentages leaves -1, so that bound is the least |
| Instalments.TwoCentsInFour | src/modules/contracts/instalment-schedule.ts:65-68 | two cents in four quarters make the largest line -1 |
| Contracts.ContractsRepository.Issue | src/modules/contracts/contracts.repository.ts:215-339 | a DRAFT with the proforma's value and schedule, once per proforma |
| Contracts.ContractsRepository.ReplaceTheSchedule | src/modules/contracts/contract-instalments.repository.ts:83-134 | only a DRAFT's schedule, only by one that adds up, numbered 1 to n |
| Contracts.ContractsRepository.RecordInvoiced | src/modules/contracts/contract-instalments.repository.ts:141-240 | the checks in order, and PENDING to INVOICED |
| Contracts.ContractsRepository.SignContract | src/modules/contracts/contracts.repository.ts:399-418 | DRAFT to SIGNED with its date |
| Contracts.ContractsRepository.CancelContract | src/modules/contracts/contracts.repository.ts:429-461 | DRAFT or SIGNED to CANCELLED |
| Contracts.ContractsRepository.RecordHandover | src/modules/contracts/contract-handover.repository.ts:53-96 | SIGNED to COMPLETED with the handover |
| Contracts.ContractsRepository.EditDraft | src/modules/contracts/contracts.repository.ts:351-386 | only a DRAFT's clauses |
| Contracts.AcceptedIff | src/modules/contracts/contracts.repository.ts:215-461 | which operations go ahead, told from the rows alone |
| Contracts.RefusedAs | src/modules/contracts/contract-instalments.repository.ts:83-240 | what a refusal says, the first thing in the way |
| Contracts.NewDraft | src/modules/contracts/contracts.repository.ts:291-334 | a new contract is a DRAFT of the proforma with a row per term if its percentages make 100%, and without one otherwise; every other contract stays |
| Contracts.NewScheduleIs | src/modules/contracts/contracts.repository.ts:319-334 | those rows carry the terms' captions, total the contract's value and are numbered from 1 |
| Contracts.ChangesOne | src/modules/contracts/contracts.repository.ts:351-461 | what any other operation changes of its own contract, and that it leaves the others alone |
| Contracts.RunsKeepSchedules | src/modules/contracts/contract-instalments.repository.ts:68-240 | in every run schedules are empty or add up with sequence 1 to n, DRAFTs have nothing invoiced, no invoice is on two instalments or another customer's contract |
| Contracts.SignedIsFrozen | src/modules/contracts/contract-instalments.repository.ts:68-82 | once not a draft, wording, amounts and dates never change again; signatures, handovers and invoice links stay |
| Contracts.NoSecondContract | src/modules/contracts/contracts.repository.ts:247-256 | a proforma contracted once is refused for good |
| VatSplit.NetComesBack | src/modules/expenses/expense-money.ts:29-52 | exclusive then inclusive recovers the split to the cent at every rate |
| VatSplit.GrossComesBackNearly | src/modules/expenses/expense-money.ts:29-52 | inclusive then exclusive is off by a cent at most below 200%, with the bound for every rate |
| VatSplit.GrossComesBackIff | src/modules/expenses/expense-money.ts:29-52 | it is exact if and only if the remainder of gross * 10000 by 10000 + rate is at most 5000 where the net rounds down, and less than 5000 short where it rounds up; and if and only if the gross is some net's gross |
| VatSplit.ACentCanBeLost | src/modules/expenses/expense-money.ts:29-52 | 4 cents at 15% come back as 3 |
| VatSplit.SplitExclusive | src/modules/expenses/expense-money.ts:29-40 | net plus VAT is the gross |
| VatSplit.SplitInclusive | src/modules/expenses/expense-money.ts:42-52 | net plus VAT is the gross |
| VatSplit.SplitsAre | src/modules/expenses/expense-money.ts:29-52 | the VAT is the rate's part of the net, and the net is the gross over one and the rate, each to the nearest cent |
| VatSplit.LegsOfABill | src/modules/expenses/expense-money.ts:29-52 | no leg of a bill is negative |
| Numbering.DocumentSequences.ClaimSequence | src/modules/invoices/invoices.repository.ts:1109-1134 | the upsert gives the next number and stores it |
| Numbering.NumbersAreGapless | src/modules/invoices/invoices.repository.ts:1103-1135 | in every interleaving of commits and rollbacks a series is numbered 1 to its counter, in commit order |
| Numbering.OneGoesThrough | src/modules/invoices/invoices.repository.ts:1109-1134 | a document on its own gets the number after the counter, and keeps it or, rolled back, leaves everything as it was |
| Numbering.PrintedNumbersAreDistinct | src/modules/invoices/invoice-number.ts:11-17 | two documents of a tenant print one number only if they are one document |
| Numbering.PrintedAs | src/modules/invoices/invoice-number.ts:11-17 | the printed number: its kind, both fiscal years and the number in four digits or as many as it has |
| Numbering.NoTwoCarryOneNumber | src/modules/contracts/contracts.repository.ts:268-303 | no two committed documents of a tenant carry the same printed number |
| ReversalLedgers.Ledger.Reverse | src/modules/banks/bank-transactions.repository.ts:228-317 | the guards in order, and the negated, unlinked row |
| ReversalLedgers.RefusedFor | src/modules/banks/bank-transactions.repository.ts:239-291 | the first thing that stands in the way of a reversal, and that it is accepted without any |
| ReversalLedgers.ReversedBy | src/modules/banks/bank-transactions.repository.ts:293-312 | the row added: the original's account or columns, every amount with the other sign |
| ReversalLedgers.OneGoesThrough | src/modules/banks/bank-transactions.repository.ts:228-317 | a reversal on its own adds that row exactly if nothing stands in its way |
| ReversalLedgers.RunsKeepRows | src/modules/expenses/expenses.repository.ts:204-273 | in every interleaving one mirror per row at most, none of a mirror or of a linked line, and expense legs that add up |
| ReversalLedgers.AllIsLive | src/modules/banks/bank-transactions.repository.ts:224-227 | any balance or column over all rows is the one over the live rows |
| ReversalLedgers.TotalsAreLive | src/modules/banks/bank-transactions.repository.ts:224-227 | so it is in every interleaving |
| ReversalLedgers.WithoutTheLock | src/modules/expenses/expenses.repository.ts:199-203 | two guards passed from the same rows cancel one row twice |
| LastAdmin.Employees.Update | src/modules/employees/employees.repository.ts:332-390 | refused exactly when it would leave no active administrator, else written |
| LastAdmin.RefusalIff | src/modules/employees/employees.repository.ts:397-443 | the guard refuses exactly those writes |
| LastAdmin.AdminIff | src/modules/employees/employees.repository.ts:416-423 | an administrator is active, not deleted, and ADMIN or CEO |
| LastAdmin.WritesThePatch | src/modules/employees/employees.repository.ts:347-390 | every field the patch names is written and every other kept, of this employee and no other |
| LastAdmin.NeverWithoutAdmin | src/modules/employees/employees.repository.ts:332-346 | a tenant with an active, undeleted ADMIN or CEO has one in every interleaving of updates |
| LastAdmin.OneGoesThrough | src/modules/employees/employees.repository.ts:332-390 | an update on its own is written exactly if it is not refused, and one of neither role nor activity takes no lock |
| LastAdmin.WriteSkew | src/modules/employees/employees.repository.ts:334-340 | without the lock two administrators deactivate each other |
| EncodeCache.ImageCache.Look | src/common/export/document-docx.service.ts:86-103 | a hit, the pending encode, or a new one |
| EncodeCache.ImageCache.Settle | src/common/export/document-docx.service.ts:97-103 | the pending encode, and no other, is forgotten once settled |
| EncodeCache.ImageCache.Store | src/common/export/document-docx.service.ts:105-116 | the eviction loop leaves the specified entries and their byte count |
| EncodeCache.LookedIs | src/common/export/document-docx.service.ts:93-103 | a call finds the image kept under its key, else the encode under way for it, else none |
| EncodeCache.StoredIs | src/common/export/document-docx.service.ts:105-116 | a new image that fits into 32 MiB is kept, and of the older ones as many of the latest as fit with it |
| EncodeCache.TrimmedIsLeast | src/common/export/document-docx.service.ts:108-115 | eviction takes the oldest entries and no more than it must |
| EncodeCache.LastStays | src/common/export/document-docx.service.ts:105-115 | an entry that fits on its own is never evicted by its own insertion |
| EncodeCache.CacheIsSound | src/common/export/document-docx.service.ts:58-118 | in every interleaving the byte count is that of the entries and within the budget, one encode per image is in flight, and a hit is what encoding gave |
| EncodeCache.OneIsEncoded | src/common/export/document-docx.service.ts:93-103 | an image nobody has asked for is encoded once, and another call for it joins that encode |
| EncodeCache.OneIsKept | src/common/export/document-docx.service.ts:97-116 | an encode that is done is forgotten, and the first caller to go on keeps what it gave |
| EncodeCache.ResumedIsAHit | src/common/export/document-docx.service.ts:93-118 | after a kept result the next call for that image hits with it |

## Left out

- decimal.js working precision: quotients and products are exact, and rounding happens only where the source rounds to cents.
- The JavaScript prototype keys reachable through the formula language's lookup tables: both tables are finite maps.
- `formulaProblem` and its probe scopes (src/common/formula.ts:379-528): a validation of entered formulas, not what prices them.
- The calculator's notes, its EN 81 geometry and the passenger shaft table: none is priced; the table is a parameter, one lift for every shaft.
- JSON numbers are the texts JavaScript prints for them, so 0 and -0 are one number, and SHA-256 is taken to be injective.
- Idempotency.AtMostOneRuns: under the discipline the repository's own comment asks for, an answer with a body within the window; `OverrunsIff` is what happens without it.
- Invoice issuing beyond its ledger row: lines, fiscal receipt numbers, due-date defaults, and issuing from a proforma.
- The receipt number a payment claims, in the receivables modules: numbering is modelled on its own.
- InvoiceProtocol.ExecutionsAreSerial: the statements that read one locked resource are one step, in which nothing can change it.
- StoredBalances.StoredIff: the update of the balance is one step with the commit; two updates of one customer's row wait for each other, so they commit in that order.
- Deadlocks.DeadlocksIff: the locks the code names, the series row and the customer row; the row locks PostgreSQL takes for foreign keys and the invoice rows, which are written under their advisory lock, are not part of this model.
- The figures a classic request derives: EN 81 geometry, the car of a vehicle and the persons of a load.
- Contracts.RunsKeepSchedules: each contract operation is one atomic step; two requests naming one invoice at once, or signing during a schedule replacement, are the unlocked races the source's comments accept.
- The projects a signature or a handover advances, and the text fields of a contract, which are one string here.
- ReversalLedgers.Ledger.Record: the existence checks and unique indexes on linked payments and expenses.
- Dates outside the years whose ISO text has four digits, and `Date.UTC`'s reading of years below 100.
- The time zone of "today": it is a parameter.
- Excel, PDF and Word files, HTTP, SQL text, row-level security, hashing, streams and their backpressure.
- Phone numbers, SMS segments, pagination, floor labels, role tables and asset statuses: easy members.
