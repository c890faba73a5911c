/**
  The four server operations on the store: lend, pay, ledger and account
  overview, each a pure function of the store and the request. Lend and pay
  return the response together with the store they leave behind; the two
  reads return only the response. Ids that the server draws from
  `uuidv4()` are parameters; an id that is already taken makes the insert
  fail, as the table's primary key would.
 */
module Handlers {
  import opened Wrappers
  import opened Money
  import opened LoanCalculator
  import opened Ledger

  /** The server's error responses. */
  datatype ApiError =
    | FieldsRequired        // 400 "All fields are required"
    | InvalidInputValues    // 400 "Invalid input values"
    | PaymentInputRequired  // 400 "Valid amount and payment_type (EMI or LUMP_SUM) required"
    | AmountNotPositive     // 400 "Amount must be positive"
    | LoanNotFound          // 404 "Loan not found"
    | NoLoansFound          // 404 "No loans found for this customer"
    | InsertFailed          // 500 "Failed to create loan" / "Failed to record payment"

  /** A handler's response together with the store it leaves behind. */
  datatype Step<T> = Step(response: Result<T, ApiError>, store: Store)

  /** JavaScript truthiness of a numeric body field: sent and not zero. */
  predicate PresentNumber(x: Option<real>) {
    x.Some? && x.value != 0.0
  }

  /** JavaScript truthiness of a text body field: sent and not empty. */
  predicate PresentText(x: Option<string>) {
    x.Some? && x.value != ""
  }

  /** A numeric body field that was sent and is strictly positive. */
  predicate Positive(x: Option<real>) {
    x.Some? && x.value > 0.0
  }

  // ---------------------------------------------------------------------
  // LEND
  // ---------------------------------------------------------------------

  datatype LoanRequest = LoanRequest(
    customerId: Option<string>,
    loanAmount: Option<real>,
    loanPeriodYears: Option<real>,
    interestRateYearly: Option<real>)

  datatype LoanTerms = LoanTerms(customerId: CustomerId, principal: real, years: real, rate: real)

  /**
    The two validation steps of the lend handler. A request passes exactly
    when a customer id is given and all three numbers are positive; a missing
    or zero field is reported before a negative one.
   */
  function ValidateLoanRequest(req: LoanRequest): (r: Result<LoanTerms, ApiError>)
    ensures r.Success? <==>
              PresentText(req.customerId) && Positive(req.loanAmount)
              && Positive(req.loanPeriodYears) && Positive(req.interestRateYearly)
    ensures r.Success? ==>
              r.value == LoanTerms(req.customerId.value, req.loanAmount.value,
                                   req.loanPeriodYears.value, req.interestRateYearly.value)
    ensures r == Failure(FieldsRequired) <==>
              !(PresentText(req.customerId) && PresentNumber(req.loanAmount)
                && PresentNumber(req.loanPeriodYears) && PresentNumber(req.interestRateYearly))
    ensures r.Failure? ==> r.error == FieldsRequired || r.error == InvalidInputValues
  {
    if !(PresentText(req.customerId) && PresentNumber(req.loanAmount)
         && PresentNumber(req.loanPeriodYears) && PresentNumber(req.interestRateYearly)) then
      Failure(FieldsRequired)
    else if req.loanAmount.value <= 0.0 || req.loanPeriodYears.value <= 0.0
            || req.interestRateYearly.value <= 0.0 then
      Failure(InvalidInputValues)
    else
      Success(LoanTerms(req.customerId.value, req.loanAmount.value,
                        req.loanPeriodYears.value, req.interestRateYearly.value))
  }

  datatype LoanCreated = LoanCreated(
    loanId: LoanId,
    customerId: CustomerId,
    totalAmountPayable: real,
    monthlyEmi: real,
    totalInterest: real)

  /**
    The loan row the lend handler writes for validated terms: the request's
    terms, a total and EMI in whole cents within half a cent of principal plus
    simple interest and of that total spread over the months of the term.
   */
  function NewLoan(loanId: LoanId, t: LoanTerms): (l: Loan)
    requires t.years > 0.0
    ensures l.id == loanId && l.customerId == t.customerId
    ensures l.principal == t.principal && l.years == t.years && l.interestRate == t.rate
    ensures IsCents(l.totalAmount) && IsCents(l.monthlyEmi)
    ensures -0.005 <= l.totalAmount - ExactTotal(t.principal, t.years, t.rate) <= 0.005
    ensures -0.005 <= l.monthlyEmi - ExactTotal(t.principal, t.years, t.rate) / (t.years * 12.0) <= 0.005
    ensures t.principal > 0.0 && t.rate > 0.0 ==> WellFormedLoan(l)
  {
    var q := Quote(t.principal, t.years, t.rate);
    Loan(loanId, t.customerId, t.principal, q.totalAmount, t.rate, t.years, q.monthlyEmi)
  }

  /**
    `POST /loans`. A rejected request writes nothing; an accepted one adds
    exactly one loan, under the new id, at the end of the creation log, and
    leaves every other loan and every payment as it was. The customer id is
    not checked against any customer table.
   */
  function CreateLoan(s: Store, req: LoanRequest, loanId: LoanId): (r: Step<LoanCreated>)
    ensures r.response.Success? <==> ValidateLoanRequest(req).Success? && loanId !in s.loans
    ensures r.response.Failure? ==> r.store == s
    ensures ValidateLoanRequest(req).Failure? ==> r.response.Failure? && r.response.error == ValidateLoanRequest(req).error
    ensures ValidateLoanRequest(req).Success? && loanId in s.loans ==> r.response == Failure(InsertFailed)
    ensures r.response.Success? ==>
              && r.store.loans.Keys == s.loans.Keys + {loanId}
              && (forall k :: k in s.loans ==> r.store.loans[k] == s.loans[k])
              && r.store.created == s.created + [loanId]
              && r.store.payments == s.payments
    ensures r.response.Success? ==>
              var l := r.store.loans[loanId];
              && WellFormedLoan(l) && l.id == loanId && l.customerId == req.customerId.value
              && l.principal == req.loanAmount.value && l.years == req.loanPeriodYears.value
              && l.interestRate == req.interestRateYearly.value
              && r.response.value.loanId == loanId
              && r.response.value.customerId == req.customerId.value
              && r.response.value.totalAmountPayable == l.totalAmount
              && r.response.value.monthlyEmi == l.monthlyEmi
              && r.response.value.totalInterest == Quote(l.principal, l.years, l.interestRate).totalInterest
    ensures Valid(s) ==> Valid(r.store)
  {
    match ValidateLoanRequest(req)
    case Failure(e) => Step(Failure(e), s)
    case Success(t) =>
      if loanId in s.loans then Step(Failure(InsertFailed), s)
      else
        var loan := NewLoan(loanId, t);
        var s' := s.(loans := s.loans[loanId := loan], created := s.created + [loanId]);
        assert Valid(s) ==> Valid(s') by {
          if Valid(s) {
            assert forall k :: k in s'.created <==> k in s.created || k == loanId;
            assert forall i :: 0 <= i < |s.created| ==> s'.created[i] == s.created[i];
          }
        }
        Step(Success(LoanCreated(loanId, t.customerId, loan.totalAmount, loan.monthlyEmi,
                                 Quote(t.principal, t.years, t.rate).totalInterest)), s')
  }

  // ---------------------------------------------------------------------
  // PAYMENT
  // ---------------------------------------------------------------------

  /** The accepted `payment_type` strings. */
  function ParsePaymentType(t: string): (r: Option<PaymentType>)
    ensures r.Some? <==> t == "EMI" || t == "LUMP_SUM"
    ensures t == "EMI" ==> r == Some(Emi)
    ensures t == "LUMP_SUM" ==> r == Some(LumpSum)
  {
    if t == "EMI" then Some(Emi) else if t == "LUMP_SUM" then Some(LumpSum) else None
  }

  /** Appending a positive payment under a fresh id keeps the store valid. */
  lemma AppendPaymentKeepsValid(s: Store, p: Payment)
    requires p.amount > 0.0 && !PaymentIdTaken(s.payments, p.id)
    ensures Valid(s) ==> Valid(s.(payments := s.payments + [p]))
  {
    if Valid(s) {
      var s' := s.(payments := s.payments + [p]);
      assert forall i :: 0 <= i < |s.payments| ==> s'.payments[i] == s.payments[i];
    }
  }

  /** Some recorded payment already has this id. */
  predicate PaymentIdTaken(ps: seq<Payment>, id: PaymentId) {
    exists i :: 0 <= i < |ps| && ps[i].id == id
  }

  /** The body fields pass both of the payment handler's checks. */
  predicate AcceptablePayment(amount: Option<real>, paymentType: Option<string>) {
    Positive(amount) && paymentType.Some? && ParsePaymentType(paymentType.value).Some?
  }

  datatype PaymentReceipt = PaymentReceipt(
    paymentId: PaymentId,
    loanId: LoanId,
    remainingBalance: real,
    emisLeft: EmiCount)

  /**
    `POST /loans/:loanId/payments`. The payment row is inserted BEFORE the
    loan is looked up: a payment that passes validation is appended even when
    no loan has that id, and the caller is then told the loan was not found.
    A receipt reports the loan's earlier balance lowered by exactly the
    amount paid, and the EMIs that remain on it.
   */
  function RecordPayment(s: Store, loanId: LoanId, amount: Option<real>,
                         paymentType: Option<string>, paymentId: PaymentId): (r: Step<PaymentReceipt>)
    ensures AcceptablePayment(amount, paymentType) && !PaymentIdTaken(s.payments, paymentId) ==>
              r.store == s.(payments := s.payments + [Payment(paymentId, loanId, amount.value,
                                                              ParsePaymentType(paymentType.value).value)])
    ensures !(AcceptablePayment(amount, paymentType) && !PaymentIdTaken(s.payments, paymentId)) ==>
              r.store == s && r.response.Failure?
    ensures r.response == Failure(PaymentInputRequired) <==>
              !(PresentNumber(amount) && paymentType.Some? && ParsePaymentType(paymentType.value).Some?)
    ensures r.response == Failure(AmountNotPositive) <==>
              PresentNumber(amount) && paymentType.Some? && ParsePaymentType(paymentType.value).Some?
              && amount.value < 0.0
    ensures r.response.Success? <==>
              AcceptablePayment(amount, paymentType) && !PaymentIdTaken(s.payments, paymentId)
              && loanId in s.loans
    ensures (AcceptablePayment(amount, paymentType) && !PaymentIdTaken(s.payments, paymentId)
             && loanId !in s.loans) ==> r.response == Failure(LoanNotFound)
    ensures AcceptablePayment(amount, paymentType) && PaymentIdTaken(s.payments, paymentId) ==>
              r.response == Failure(InsertFailed)
    ensures r.response.Success? ==>
              r.response.value.paymentId == paymentId && r.response.value.loanId == loanId
    ensures r.response.Success? ==>
              var before := Balance(LoanRow(s, loanId).value);
              && r.response.value.remainingBalance == Round2(before - amount.value)
              && r.response.value.emisLeft == EmisLeft(before - amount.value, s.loans[loanId].monthlyEmi)
    ensures Valid(s) ==> Valid(r.store)
  {
    if !(PresentNumber(amount) && paymentType.Some? && ParsePaymentType(paymentType.value).Some?) then
      Step(Failure(PaymentInputRequired), s)
    else if amount.value <= 0.0 then
      Step(Failure(AmountNotPositive), s)
    else if PaymentIdTaken(s.payments, paymentId) then
      Step(Failure(InsertFailed), s)
    else
      var p := Payment(paymentId, loanId, amount.value, ParsePaymentType(paymentType.value).value);
      var s' := s.(payments := s.payments + [p]);
      AppendPaymentKeepsValid(s, p);
      match LoanRow(s', loanId)
      case None => Step(Failure(LoanNotFound), s')
      case Some(row) =>
        AmountPaidAppend(s.payments, p, loanId);
        var balance := Balance(row);
        assert balance == Balance(LoanRow(s, loanId).value) - amount.value
            && row.loan.monthlyEmi == s.loans[loanId].monthlyEmi;
        Step(Success(PaymentReceipt(paymentId, loanId, Round2(balance),
                                    EmisLeft(balance, row.loan.monthlyEmi))), s')
  }

  // ---------------------------------------------------------------------
  // LEDGER
  // ---------------------------------------------------------------------

  datatype Transaction = Transaction(transactionId: PaymentId, amount: real, kind: PaymentType)

  datatype LedgerView = LedgerView(
    loanId: LoanId,
    customerId: CustomerId,
    principal: real,
    totalAmount: real,
    monthlyEmi: real,
    amountPaid: real,
    balanceAmount: real,
    emisLeft: EmiCount,
    transactions: seq<Transaction>)

  /** A payment as the ledger lists it, its amount shown to the cent. */
  function AsTransaction(p: Payment): Transaction {
    Transaction(p.id, Round2(p.amount), p.kind)
  }

  /**
    `GET /loans/:loanId/ledger`. Fails exactly when no loan has the id. The
    listed history holds one entry per payment joined to the loan, newest
    first, each with its id, amount to the cent and type. Amount paid,
    balance and EMIs left all derive from the one joined sum, which equals
    the sum of the listed history: the balance is the contract total less
    that sum (rounded, and negative after an overpayment), and the EMIs left
    are counted from that unrounded balance.
   */
  function GetLedger(s: Store, loanId: LoanId): (r: Result<LedgerView, ApiError>)
    ensures r.Failure? <==> loanId !in s.loans
    ensures r.Failure? ==> r.error == LoanNotFound
    ensures r.Success? ==>
              var l := s.loans[loanId];
              && r.value.loanId == loanId && r.value.customerId == l.customerId
              && r.value.principal == l.principal && r.value.totalAmount == l.totalAmount
              && r.value.monthlyEmi == l.monthlyEmi
    ensures r.Success? ==>
              var ts := Transactions(s.payments, loanId);
              && |r.value.transactions| == |ts|
              && forall i :: 0 <= i < |ts| ==>
                   r.value.transactions[i] == Transaction(ts[i].id, Round2(ts[i].amount), ts[i].kind)
    ensures r.Success? ==>
              SumAmounts(Transactions(s.payments, loanId)) == AmountPaid(s.payments, loanId)
    ensures r.Success? ==>
              var l, paid := s.loans[loanId], AmountPaid(s.payments, loanId);
              && r.value.amountPaid == Round2(paid)
              && r.value.balanceAmount == Round2(l.totalAmount - paid)
              && r.value.emisLeft == EmisLeft(l.totalAmount - paid, l.monthlyEmi)
  {
    match LoanRow(s, loanId)
    case None => Failure(LoanNotFound)
    case Some(row) =>
      var ts := Transactions(s.payments, loanId);
      TransactionsSumToAmountPaid(s.payments, loanId);
      var balance := Balance(row);
      assert row.amountPaid == AmountPaid(s.payments, loanId);
      assert balance == row.loan.totalAmount - row.amountPaid;
      Success(LedgerView(
        loanId, row.loan.customerId, row.loan.principal, row.loan.totalAmount, row.loan.monthlyEmi,
        Round2(row.amountPaid), Round2(balance), EmisLeft(balance, row.loan.monthlyEmi),
        seq(|ts|, i requires 0 <= i < |ts| => AsTransaction(ts[i]))))
  }

  // ---------------------------------------------------------------------
  // ACCOUNT OVERVIEW
  // ---------------------------------------------------------------------

  /** The loan created at position p of the log belongs to the customer. */
  predicate Owns(created: seq<LoanId>, loans: map<LoanId, Loan>, customerId: CustomerId, p: nat)
    requires p < |created|
  {
    created[p] in loans && loans[created[p]].customerId == customerId
  }

  /**
    The positions in the creation log, below n, of the customer's loans, in
    descending order: most recently created first.
   */
  function CustomerPositions(created: seq<LoanId>, loans: map<LoanId, Loan>,
                             customerId: CustomerId, n: nat): (ps: seq<nat>)
    requires n <= |created|
    ensures forall i :: 0 <= i < |ps| ==> ps[i] < n && Owns(created, loans, customerId, ps[i])
    ensures forall i, j :: 0 <= i < j < |ps| ==> ps[i] > ps[j]
    ensures forall p :: 0 <= p < n && Owns(created, loans, customerId, p) ==> p in ps
  {
    if n == 0 then []
    else
      (if Owns(created, loans, customerId, n - 1) then [n - 1] else [])
      + CustomerPositions(created, loans, customerId, n - 1)
  }

  datatype OverviewEntry = OverviewEntry(
    loanId: LoanId,
    principal: real,
    totalAmount: real,
    totalInterest: real,
    emiAmount: real,
    amountPaid: real,
    emisLeft: EmiCount)

  datatype Overview = Overview(customerId: CustomerId, totalLoans: nat, loans: seq<OverviewEntry>)

  /**
    One loan's line in the overview: the loan's terms, its interest as total
    less principal to the cent, and the amount paid and EMIs left computed
    from the payment log. In a valid store the principal is positive and the
    amount paid is never negative.
   */
  function EntryFor(s: Store, loanId: LoanId): (e: OverviewEntry)
    requires loanId in s.loans
    ensures var l, paid := s.loans[loanId], AmountPaid(s.payments, loanId);
            && e.loanId == loanId && e.principal == l.principal && e.totalAmount == l.totalAmount
            && e.emiAmount == l.monthlyEmi
            && e.totalInterest == Round2(l.totalAmount - l.principal)
            && e.amountPaid == Round2(paid)
            && e.emisLeft == EmisLeft(l.totalAmount - paid, l.monthlyEmi)
    ensures Valid(s) ==> e.principal > 0.0 && e.amountPaid >= 0.0
  {
    var row := LoanRow(s, loanId).value;
    OverviewEntry(loanId, row.loan.principal, row.loan.totalAmount,
                  Round2(row.loan.totalAmount - row.loan.principal), row.loan.monthlyEmi,
                  Round2(row.amountPaid), EmisLeft(Balance(row), row.loan.monthlyEmi))
  }

  /** The customer's loans, newest first. */
  function CustomerLoans(s: Store, customerId: CustomerId): seq<nat> {
    CustomerPositions(s.created, s.loans, customerId, |s.created|)
  }

  /**
    `GET /customers/:customerId/overview`. Fails with "no loans" exactly when
    the creation log holds none of the customer's loans, so an unknown
    customer cannot be told apart from one without loans. Otherwise it lists
    one entry per loan of the customer, newest first, counts them, and shows
    each loan's terms, its interest as total less principal, and its amount
    paid and EMIs left computed from the payment log.
   */
  function GetOverview(s: Store, customerId: CustomerId): (r: Result<Overview, ApiError>)
    ensures r.Failure? <==> CustomerLoans(s, customerId) == []
    ensures r.Failure? ==> r.error == NoLoansFound
    ensures r.Success? ==>
              var ps := CustomerLoans(s, customerId);
              && r.value.customerId == customerId
              && r.value.totalLoans == |r.value.loans| == |ps|
              && forall i :: 0 <= i < |ps| ==>
                   && s.created[ps[i]] in s.loans
                   && var id, e := s.created[ps[i]], r.value.loans[i];
                      var l := s.loans[id];
                      && e.loanId == id && l.customerId == customerId
                      && e.principal == l.principal && e.totalAmount == l.totalAmount
                      && e.totalInterest == Round2(l.totalAmount - l.principal)
                      && e.emiAmount == l.monthlyEmi
                      && e.amountPaid == Round2(AmountPaid(s.payments, id))
                      && e.emisLeft == EmisLeft(l.totalAmount - AmountPaid(s.payments, id), l.monthlyEmi)
  {
    var ps := CustomerLoans(s, customerId);
    if ps == [] then Failure(NoLoansFound)
    else
      var entries := seq(|ps|, i requires 0 <= i < |ps| => EntryFor(s, s.created[ps[i]]));
      Success(Overview(customerId, |ps|, entries))
  }
}
