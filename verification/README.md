# Loan accounting engine of the bank lending system, in Dafny

This project models the accounting core of a small bank lending service. The
model covers:

- how a simple-interest loan is quoted when it is originated;
- how payments are recorded in an append-only log;
- how each loan's amount paid, balance and EMIs left are recomputed from that
  log on every read;
- how a customer's loans are summarised in the account overview.

It also models the two pieces of client-side arithmetic that repeat or build
on the server's: the live quote preview on the loan form, and the status
badge and summary totals on the account overview page.

Files, one module each:

- `wrappers.dfy` holds `Option` and `Result`.
- `money.dfy` holds exact decimal money. `Round2` is the `toFixed(2)` rounding,
  to whole cents with ties away from zero, and `Ceil` is `Math.ceil`.
- `calculator.dfy` holds the quote (`calculateLoanDetails`).
- `ledger.dfy` holds the store and the figures derived from it. The store is:
  - a map from loan id to an immutable `Loan`;
  - `created`, the loan ids in creation order, which stands in for the
    `created_at` timestamp;
  - an append-only `seq<Payment>`.

  The derived figures are amount paid, transaction history, balance and EMIs
  left.
- `handlers.dfy` holds the four server operations (lend, pay, ledger, account
  overview), each a pure function of the store and the request. Lend and pay
  return a `Step`: the response plus the store they leave behind. The two
  reads return only the response.
- `properties.dfy` holds lemmas that relate several operations.
- `client.dfy` holds the loan form preview, the status badge and the overview
  summary totals.

Money is exact: every currency figure is a `real`, and the server's rounding
to cents is one explicit function. Ids that the server draws from `uuidv4()`
are parameters. An id that is already taken makes the insert fail, as the
table's primary key would (`InsertFailed`, the 500 response).

Behaviour the model reproduces deliberately:

- **Orphan payments.** The payment handler inserts the payment row before it
  looks the loan up. A valid payment against an unknown loan id is therefore
  appended, and the caller is told "Loan not found". `OrphanPaymentIsInvisible`
  proves that such a payment changes no ledger and no overview. A loan created
  later under the same id would pick the orphan up, because the ledger joins
  by id. `NewLoanStartsUnpaid` therefore assumes that no earlier payment names
  the new id.
- **Overpayment.** Overpayment is accepted. The balance is not floored, so it
  goes negative, and EMIs left is 0.
- **EMI rounded to zero.** A valid but tiny loan can have its EMI rounded to
  0.00 (`QuoteEmiCanRoundToZero`). For such a loan `Math.ceil(balance / 0)` is
  Infinity or NaN, and JSON sends it as null. `EmisLeft` therefore returns
  `EmiCount = Finite(n) | Null`. It returns `Null` exactly when the EMI is 0
  and the balance is not negative. With a negative balance it returns 0,
  because `Math.max(0, -Infinity)` is 0. The client reads a null count as
  "Almost Paid", because `null <= 3` holds in JavaScript, and adds nothing for
  it to the EMI total.
- **Total versus principal plus interest.** Total payable is not always
  principal plus interest after rounding. The code rounds the two figures
  separately. The identity holds when the principal is a whole number of
  cents (`QuoteTotalIsPrincipalPlusInterest`). A principal of 0.004 at 100%
  for a year breaks it (`QuoteTotalDriftsOnSubCentPrincipal`).
- **EMI positivity.** Positive terms do not guarantee a positive EMI, as the
  example above shows. The EMI properties assume `monthlyEmi > 0` explicitly.
- **Loan term.** The code does not require the term to be a whole number of
  years, so `years` is a `real`.
- **Customer check.** Creating a loan does not check that the customer exists.

## Model

| member | source | states |
|---|---|---|
| Money.Round2 | server/index.js:66-68 | `toFixed(2)` gives a whole number of cents within half a cent of its input, with the input's sign |
| Money.Round2ShiftByCents | server/index.js:61-67 | adding a non-negative whole number of cents to a non-negative amount commutes with rounding to cents |
| Money.Round2OfCents | server/index.js:66-68 | rounding a whole number of cents leaves it unchanged |
| Money.Round2Monotone | server/index.js:66-68 | rounding to cents never reverses the order of two amounts |
| Money.Ceil | server/index.js:160 | `Math.ceil` gives the least integer not below its argument |
| LoanCalculator.Quote | server/index.js:60-70 | interest, total and EMI are each whole cents within half a cent of simple interest, principal plus interest, and that total over the months of the term; positive terms give non-negative figures |
| LoanCalculator.QuoteTotalIsPrincipalPlusInterest | server/index.js:61-68 | for a principal in whole cents, the rounded total equals the principal plus the rounded interest |
| LoanCalculator.QuoteTotalDriftsOnSubCentPrincipal | server/index.js:61-68 | a principal of fractional cents (0.004 at 100% for a year) breaks that identity |
| LoanCalculator.QuoteExample | server/index.js:60-70 | 100000 at 10% for 2 years quotes 20000 interest, 120000 total and 5000.00 a month |
| LoanCalculator.QuoteEmiUsesUnroundedTotal | server/index.js:62-68 | the EMI is divided from the unrounded total: 1 at 1.9988% for a year gives 0.08, while the displayed total would give 0.09 |
| LoanCalculator.QuoteEmiCanRoundToZero | server/index.js:63-68 | a valid tiny loan (0.05 at 1% for a year) has its EMI rounded to 0.00 |
| Ledger.AmountPaid | server/index.js:76-82 | the joined sum is never negative when every payment is positive, and is 0 when no payment is joined to the loan |
| Ledger.AmountPaidAppend | server/index.js:76-82 | appending a payment raises a loan's summed amount paid by exactly its amount if it is joined to that loan, and by nothing otherwise |
| Ledger.ComputeAmountPaid | server/index.js:178-186 | a single pass over the payments table adds up exactly the payments joined to the loan |
| Ledger.AmountPaidZeroIffNoPayments | server/index.js:78 | with positive payment amounts, amount paid is 0 exactly when no payment is joined to the loan (the COALESCE case) |
| Ledger.JoinedPositions | server/index.js:203-205 | the log positions of the payments joined to the loan: each once, strictly descending (newest first), none missing (by `JoinedPositionsComplete`) |
| Ledger.JoinedPositionsComplete | server/index.js:197-206 | every payment joined to the loan has its position in that list, so the history leaves none out |
| Ledger.Transactions | server/index.js:197-206 | the history lists, in order, the payment at each of those positions, so every joined payment appears exactly once and newest first |
| Ledger.TransactionsEmptyIff | server/index.js:197-206 | a loan's history is empty exactly when no payment is joined to it |
| Ledger.TransactionsSumToAmountPaid | server/index.js:179-206 | the listed history adds up to the reported amount paid |
| Ledger.EmisLeft | server/index.js:159-167 | with a positive EMI, EMIs left is a count that is 0 exactly when the balance is at most 0; with a zero EMI it is null unless the balance is negative, and then 0 |
| Ledger.EmisLeftCovers | server/index.js:159-167 | with a positive EMI, that many instalments cover the balance and one fewer does not: the count is the ceiling of balance over EMI, never below 0 |
| Ledger.CeilCovers | server/index.js:160 | `ceil(balance / emi)` instalments cover the balance, and one fewer would not |
| Ledger.LoanRow | server/index.js:73-88 | the joined row exists exactly when a loan has the id and carries that loan; in a valid store the row's id is the key and its amount paid is never negative |
| Ledger.Balance | server/index.js:159 | the balance is not floored: it is at most 0 exactly when the payments reach the total, and negative exactly when they exceed it |
| Ledger.EmptyStoreValid | server/index.js:29-50 | the freshly created empty tables satisfy the store invariant that every handler preserves |
| Ledger.EmisLeftMonotone | server/index.js:211-222 | a lower balance never has more EMIs left |
| Handlers.ValidateLoanRequest | server/index.js:96-103 | a loan request passes exactly when the customer id is given and all three numbers are positive; a missing or zero field is reported as "All fields are required" before a negative one |
| Handlers.NewLoan | server/index.js:105-115 | the written row carries the request's terms, and a total and EMI in whole cents within half a cent of principal plus simple interest and of that total over the months of the term |
| Handlers.CreateLoan | server/index.js:93-128 | a rejected request or taken id writes nothing, and a taken id for an otherwise valid request is the 500 "Failed to create loan"; an accepted one adds exactly one well-formed loan with the quoted figures, appends it to the creation log, and leaves every other loan and every payment unchanged; the 201 body echoes the new id, the customer id and the quoted figures; validity of the store is preserved |
| Handlers.ParsePaymentType | server/index.js:135-148 | only "EMI" and "LUMP_SUM" are accepted payment types, and each is stored as the type it names, so the ledger lists a payment with the type it was sent with |
| Handlers.AppendPaymentKeepsValid | server/index.js:145-148 | inserting a positive payment under an id no payment has keeps the store invariant (positive amounts, distinct payment ids) |
| Handlers.RecordPayment | server/index.js:131-173 | a payment is appended exactly when its amount is positive, its type is accepted and its id is free, whether or not the loan exists; an unknown loan then gets "Loan not found"; a taken id for an otherwise acceptable payment is the 500 "Failed to record payment"; otherwise nothing is written; the receipt shows the earlier balance lowered by exactly the amount |
| Handlers.GetLedger | server/index.js:176-231 | fails exactly for an unknown loan; otherwise echoes the loan's terms and lists, newest first, each joined payment's id, amount to the cent and type; amount paid, balance and EMIs left are all derived from the sum of that list |
| Handlers.CustomerPositions | server/index.js:237-245 | the positions in the creation log of the customer's loans, each once, strictly descending, none missing |
| Handlers.EntryFor | server/index.js:255-268 | a line shows its loan's principal, total and EMI, interest as total less principal to the cent, and amount paid and EMIs left from the payment log; in a valid store the principal is positive and the amount paid never negative |
| Handlers.GetOverview | server/index.js:234-277 | fails exactly when the creation log holds none of the customer's loans; otherwise lists and counts one entry per such loan, each with the loan's principal, total, interest as total less principal, EMI, amount paid and EMIs left from the payment log |
| LedgerProperties.NewLoanStartsUnpaid | server/index.js:179-222 | a new loan that no earlier payment names has paid 0, owes its whole total, lists no transactions and has ceil(total / EMI) EMIs left |
| LedgerProperties.RecordPaymentEffect | server/index.js:145-167 | paying a on an existing loan raises amount paid by exactly a, lowers the balance by exactly a, makes the ledger's history the new payment followed by the earlier history, and never raises EMIs left |
| LedgerProperties.AppendedRow | server/index.js:73-88 | appending a positive payment to a loan raises its joined amount paid by exactly that amount, lowers its balance by the same, and with a positive EMI never raises its EMIs left |
| LedgerProperties.AppendedHistory | server/index.js:197-206 | appending a payment to a loan puts it, with its id, amount to the cent and type, at the head of that loan's ledger history in front of the earlier entries |
| LedgerProperties.RecordPaymentIsolation | server/index.js:179-186 | a payment against one id never changes the ledger of any other loan |
| LedgerProperties.OrphanPaymentIsInvisible | server/index.js:145-157 | a payment against an unknown loan id fails, yet leaves every ledger and every customer overview unchanged |
| LedgerProperties.OrphanKeepsOverviews | server/index.js:237-268 | a payment naming no loan leaves every customer's overview exactly as it was |
| LedgerProperties.OverviewAgreesWithLedger | server/index.js:255-267 | every overview line shows the same principal, total, EMI, amount paid and EMIs left as the ledger of the loan it names |
| LedgerProperties.OverviewNotFoundIff | server/index.js:251-253 | in a valid store the overview says "no loans" exactly when the customer owns none, which an unknown customer cannot be told apart from |
| LedgerProperties.OverviewCountsCustomerLoans | server/index.js:237-273 | `total_loans` is the number of loans the customer owns, and each is listed exactly once |
| LedgerProperties.OverviewNewestFirst | server/index.js:245 | overview entries are in strictly decreasing creation order |
| LedgerProperties.OverviewInterestIsTotalLessPrincipal | server/index.js:258-264 | for a principal in whole cents, each entry's interest is its total less its principal and equals the interest quoted at creation |
| LedgerProperties.EntryInterest | server/index.js:258-264 | in a valid store, the overview line of a loan with a whole-cent principal shows interest equal to its total less its principal and to the interest quoted at creation |
| LedgerProperties.ScenarioFirstEmiPayment | server/index.js:145-168 | 100000 at 10% for 2 years, then an EMI of 5000, shows 115000 outstanding and 23 EMIs left |
| LedgerProperties.ScenarioOverpayment | server/index.js:159-167 | a lump sum of 1500 on a loan owing 1200 is accepted and shows a balance of -300 and 0 EMIs left |
| Client.Preview | client/src/components/CreateLoan.js:38-59 | the preview appears exactly when all three inputs are filled in, echoes the principal unrounded, and its rounded figures equal the server's quote for the same numbers |
| Client.PreviewMatchesCreatedLoan | client/src/components/CreateLoan.js:46-54 | for numbers sent as JSON numbers that the server accepts, the preview shows exactly the total, EMI and interest the server reports for the new loan |
| Client.StatusBadge | client/src/components/AccountOverview.js:44-52 | 0 EMIs left is "Paid Off", 1 to 3 is "Almost Paid", more is "Active" (exhaustive and exclusive); a null count is "Almost Paid" |
| Client.BadgeReflectsBalance | client/src/components/AccountOverview.js:44-52 | with a positive EMI: "Paid Off" exactly when nothing is owed, "Almost Paid" exactly when at most three EMIs' worth is owed, "Active" otherwise |
| Client.TotalPrincipal | client/src/components/AccountOverview.js:106 | "Total Principal": with positive principals it is positive exactly when some loan is listed; its value is the sum of the principals (`TotalPrincipalAppend`) |
| Client.TotalPrincipalAppend | client/src/components/AccountOverview.js:106 | the total principal of a list with one more loan at the end is the earlier total plus that loan's principal, the left-to-right step of `reduce` |
| Client.TotalPaid | client/src/components/AccountOverview.js:110 | "Total Paid" (and "Total Amount Paid" at line 163) sums the listed amounts paid; with none negative it is never negative, and 0 exactly when every loan shows nothing paid |
| Client.TotalPaidAppend | client/src/components/AccountOverview.js:110 | one more loan at the end adds exactly its amount paid to the total paid |
| Client.TotalOwed | client/src/components/AccountOverview.js:159 | "Total Amount Owed" sums the listed totals and is never negative when none is |
| Client.TotalOwedAppend | client/src/components/AccountOverview.js:159 | one more loan at the end adds exactly its total to the total owed |
| Client.OutstandingBalance | client/src/components/AccountOverview.js:167 | "Outstanding Balance", the sum of each loan's total less its amount paid, equals the total owed less the total paid |
| Client.TotalEmisLeft | client/src/components/AccountOverview.js:171 | the EMI total is never negative, and is 0 exactly when every listed loan shows no EMIs left; its value is the sum of the counts (`TotalEmisLeftAppend`) |
| Client.TotalEmisLeftAppend | client/src/components/AccountOverview.js:171 | one more loan at the end adds exactly its EMIs left to the total, a null count adding 0 |
| Client.OverviewTotalPrincipalPositive | client/src/components/AccountOverview.js:106 | in a valid store, the "Total Principal" of any overview the server sends is positive |

## Left out

- HTTP routing, body parsing, CORS, static file serving and server start-up
  (server/index.js:1-14, 289-307) are plumbing with no accounting logic.
- Table creation, the SQL text and the seeded customers (server/index.js:16-57)
  are left out. So is the customer list endpoint (server/index.js:280-287),
  which only reads the seed data back. The store is the map plus sequences
  described above. The loans table's `status` column is never written after
  its default, so it is left out.
- UUID generation and `CURRENT_TIMESTAMP` are left out. Fresh ids are
  parameters. Position in the creation log and in the payment log stands in
  for time. The model therefore fixes one order where equal timestamps (to
  the second) would leave SQLite's order open. Transaction dates are not
  carried.
- IEEE-754 double behaviour of `toFixed`, `parseFloat` and arithmetic is
  left out. All arithmetic is exact, with one rounding function.
- JavaScript type coercion is left out. Body fields are modelled as numbers
  or strings, each sent or missing. NaN, non-numeric strings and string-typed
  numbers are not modelled. This leaves out a real failure. The loan form
  posts its inputs unparsed, as strings (client/src/components/CreateLoan.js:30-35, 72).
  For those strings `principal + totalInterest` (server/index.js:62) is a string
  concatenation. `totalAmount.toFixed(2)` (line 67) then throws a TypeError. So
  every loan the shipped form submits ends in a 500 instead of being created.
  The model's lend handler is the one a client sending JSON numbers sees. The
  payment form parses its amount first, so payments are not affected.
- Requests are modelled as atomic steps. In the server, the payment INSERT
  (server/index.js:145-148) and the `getLoanStatus` read (line 154) run in
  separate callbacks. A concurrent payment to the same loan can land between
  them. The receipt then reflects both payments, not the earlier balance
  lowered by exactly this one. Concurrency is not modelled.
- Database errors other than a primary-key collision (the other 500
  responses) are left out.
- Client.Preview requires a non-zero term when all three inputs are filled
  in. The browser would divide by zero and show Infinity or NaN.
- "Idempotent read" is not stated separately. The ledger and overview are
  pure functions of the store, so two reads without a write in between agree
  by construction.
- React rendering, hooks, locale formatting and the payment progress
  percentage are UI and floating-point display, so they are left out. So are
  the network client, routing, dashboard, payment form and ledger view
  components.
