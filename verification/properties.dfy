/**
  Properties that relate several handler calls, or a handler and the store
  invariant: what a payment changes and what it cannot change, what a new
  loan starts with, and what the account overview counts and in which order.
 */
module LedgerProperties {
  import opened Wrappers
  import opened Money
  import opened LoanCalculator
  import opened Ledger
  import opened Handlers

  /**
    A freshly created loan that no earlier payment names has paid nothing,
    owes its whole total, lists no transactions, and has ceil(total / EMI)
    instalments to go. (An orphan payment recorded earlier under the same id
    would be joined to the new loan.)
   */
  lemma NewLoanStartsUnpaid(s: Store, req: LoanRequest, loanId: LoanId)
    requires CreateLoan(s, req, loanId).response.Success?
    requires forall i :: 0 <= i < |s.payments| ==> s.payments[i].loanId != loanId
    ensures var v := GetLedger(CreateLoan(s, req, loanId).store, loanId);
            && v.Success?
            && v.value.amountPaid == 0.0
            && v.value.balanceAmount == v.value.totalAmount
            && v.value.transactions == []
            && (v.value.monthlyEmi > 0.0 ==>
                  v.value.emisLeft.Finite? && v.value.emisLeft.n == Ceil(v.value.totalAmount / v.value.monthlyEmi))
  {
    var s' := CreateLoan(s, req, loanId).store;
    assert loanId in s'.loans && IsCents(s'.loans[loanId].totalAmount) && s'.loans[loanId].totalAmount >= 0.0
           && forall i :: 0 <= i < |s'.payments| ==> s'.payments[i].loanId != loanId by {
      assert s'.payments == s.payments;
    }
    UnpaidLedger(s', loanId);
  }

  /** The ledger of a loan with a non-negative whole-cent total that no payment names. */
  lemma UnpaidLedger(s: Store, loanId: LoanId)
    requires loanId in s.loans && IsCents(s.loans[loanId].totalAmount) && s.loans[loanId].totalAmount >= 0.0
    requires forall i :: 0 <= i < |s.payments| ==> s.payments[i].loanId != loanId
    ensures var v := GetLedger(s, loanId);
            && v.Success?
            && v.value.amountPaid == 0.0
            && v.value.balanceAmount == v.value.totalAmount
            && v.value.transactions == []
            && (v.value.monthlyEmi > 0.0 ==>
                  v.value.emisLeft.Finite? && v.value.emisLeft.n == Ceil(v.value.totalAmount / v.value.monthlyEmi))
  {
    var l := s.loans[loanId];
    TransactionsEmptyIff(s.payments, loanId);
    Round2OfCents(l.totalAmount);
    assert Round2(0.0) == 0.0 by { Round2OfCents(0.0); }
    var v := GetLedger(s, loanId);
    assert v.value.amountPaid == 0.0;
    assert v.value.balanceAmount == l.totalAmount;
    if l.monthlyEmi > 0.0 {
      assert l.totalAmount / l.monthlyEmi >= 0.0;
    }
  }

  /**
    Recording a payment on an existing loan raises its amount paid by exactly
    the amount, lowers its balance by exactly the amount, lists the payment
    at the head of its history in front of the earlier entries, and never
    raises its EMIs left.
   */
  lemma RecordPaymentEffect(s: Store, loanId: LoanId, amount: Option<real>,
                            paymentType: Option<string>, paymentId: PaymentId)
    requires loanId in s.loans
    requires AcceptablePayment(amount, paymentType) && !PaymentIdTaken(s.payments, paymentId)
    ensures var s' := RecordPayment(s, loanId, amount, paymentType, paymentId).store;
            var before, after := LoanRow(s, loanId).value, LoanRow(s', loanId).value;
            && after.amountPaid == before.amountPaid + amount.value
            && Balance(after) == Balance(before) - amount.value
            && GetLedger(s', loanId).value.transactions
               == [Transaction(paymentId, Round2(amount.value), ParsePaymentType(paymentType.value).value)]
                  + GetLedger(s, loanId).value.transactions
            && (before.loan.monthlyEmi > 0.0 ==>
                  EmisLeft(Balance(after), after.loan.monthlyEmi).n
                  <= EmisLeft(Balance(before), before.loan.monthlyEmi).n)
  {
    var p := Payment(paymentId, loanId, amount.value, ParsePaymentType(paymentType.value).value);
    assert RecordPayment(s, loanId, amount, paymentType, paymentId).store == s.(payments := s.payments + [p]);
    AppendedRow(s, p);
    AppendedHistory(s, p);
  }

  /** Appending a positive payment to a loan's log moves its joined row by exactly that amount. */
  lemma AppendedRow(s: Store, p: Payment)
    requires p.loanId in s.loans && p.amount > 0.0
    ensures var s' := s.(payments := s.payments + [p]);
            var before, after := LoanRow(s, p.loanId).value, LoanRow(s', p.loanId).value;
            && after.amountPaid == before.amountPaid + p.amount
            && Balance(after) == Balance(before) - p.amount
            && (before.loan.monthlyEmi > 0.0 ==>
                  EmisLeft(Balance(after), after.loan.monthlyEmi).n
                  <= EmisLeft(Balance(before), before.loan.monthlyEmi).n)
  {
    var s' := s.(payments := s.payments + [p]);
    AmountPaidAppend(s.payments, p, p.loanId);
    var before, after := LoanRow(s, p.loanId).value, LoanRow(s', p.loanId).value;
    if before.loan.monthlyEmi > 0.0 {
      EmisLeftMonotone(Balance(after), Balance(before), before.loan.monthlyEmi);
    }
  }

  /** Appending a payment to a loan's log puts it at the head of that loan's ledger history. */
  lemma AppendedHistory(s: Store, p: Payment)
    requires p.loanId in s.loans
    ensures GetLedger(s.(payments := s.payments + [p]), p.loanId).value.transactions
            == [Transaction(p.id, Round2(p.amount), p.kind)] + GetLedger(s, p.loanId).value.transactions
  {
    var s' := s.(payments := s.payments + [p]);
    TransactionsNewestFirst(s.payments, p, p.loanId);
    ListingOfCons(p, Transactions(s.payments, p.loanId),
                  GetLedger(s', p.loanId).value.transactions, GetLedger(s, p.loanId).value.transactions);
  }

  /** A history listed entry by entry, with one more payment in front, lists that payment first. */
  lemma ListingOfCons(p: Payment, ts: seq<Payment>, longer: seq<Transaction>, shorter: seq<Transaction>)
    requires |longer| == |[p] + ts| && |shorter| == |ts|
    requires forall i :: 0 <= i < |longer| ==>
               longer[i] == Transaction(([p] + ts)[i].id, Round2(([p] + ts)[i].amount), ([p] + ts)[i].kind)
    requires forall i :: 0 <= i < |shorter| ==>
               shorter[i] == Transaction(ts[i].id, Round2(ts[i].amount), ts[i].kind)
    ensures longer == [Transaction(p.id, Round2(p.amount), p.kind)] + shorter
  {
    var head := [Transaction(p.id, Round2(p.amount), p.kind)];
    forall i | 0 <= i < |longer| ensures longer[i] == (head + shorter)[i] {
      if i > 0 {
        assert ([p] + ts)[i] == ts[i - 1];
      }
    }
  }

  /** Recording a payment against one id never changes the ledger of any other loan. */
  lemma RecordPaymentIsolation(s: Store, loanId: LoanId, amount: Option<real>,
                               paymentType: Option<string>, paymentId: PaymentId, other: LoanId)
    requires other != loanId
    ensures GetLedger(RecordPayment(s, loanId, amount, paymentType, paymentId).store, other)
            == GetLedger(s, other)
  {
    var s' := RecordPayment(s, loanId, amount, paymentType, paymentId).store;
    if s' != s {
      var p := Payment(paymentId, loanId, amount.value, ParsePaymentType(paymentType.value).value);
      AmountPaidAppend(s.payments, p, other);
      TransactionsNewestFirst(s.payments, p, other);
      assert LoanRow(s', other) == LoanRow(s, other);
      assert Transactions(s'.payments, other) == Transactions(s.payments, other);
    }
  }

  /**
    A payment against an id no loan has is appended as an orphan and reported
    as "Loan not found", yet no ledger and no customer overview changes.
   */
  lemma OrphanPaymentIsInvisible(s: Store, loanId: LoanId, amount: Option<real>,
                                 paymentType: Option<string>, paymentId: PaymentId)
    requires loanId !in s.loans
    ensures var r := RecordPayment(s, loanId, amount, paymentType, paymentId);
            && r.response.Failure?
            && (forall k :: GetLedger(r.store, k) == GetLedger(s, k))
            && (forall c :: GetOverview(r.store, c) == GetOverview(s, c))
  {
    var s' := RecordPayment(s, loanId, amount, paymentType, paymentId).store;
    forall k ensures GetLedger(s', k) == GetLedger(s, k) {
      if k != loanId {
        RecordPaymentIsolation(s, loanId, amount, paymentType, paymentId, k);
      }
    }
    if s' != s {
      var p := Payment(paymentId, loanId, amount.value, ParsePaymentType(paymentType.value).value);
      assert s' == s.(payments := s.payments + [p]);
      OrphanKeepsOverviews(s, p);
    }
  }

  /** A payment naming no loan changes no loan's overview line. */
  lemma OrphanKeepsEntries(s: Store, p: Payment)
    requires p.loanId !in s.loans
    ensures forall k :: k in s.loans ==> EntryFor(s.(payments := s.payments + [p]), k) == EntryFor(s, k)
  {
    var s' := s.(payments := s.payments + [p]);
    forall k | k in s.loans ensures EntryFor(s', k) == EntryFor(s, k) {
      AmountPaidAppend(s.payments, p, k);
      assert AmountPaid(s'.payments, k) == AmountPaid(s.payments, k) && s'.loans == s.loans;
    }
  }

  /** A payment naming no loan changes no customer's overview. */
  lemma OrphanKeepsOverviews(s: Store, p: Payment)
    requires p.loanId !in s.loans
    ensures forall c :: GetOverview(s.(payments := s.payments + [p]), c) == GetOverview(s, c)
  {
    var s' := s.(payments := s.payments + [p]);
    OrphanKeepsEntries(s, p);
    forall c ensures GetOverview(s', c) == GetOverview(s, c) {
      assert CustomerLoans(s', c) == CustomerLoans(s, c);
      if GetOverview(s, c).Success? {
        OverviewEntries(s, c);
        OverviewEntries(s', c);
        assert GetOverview(s', c).value.loans == GetOverview(s, c).value.loans;
      }
    }
  }

  /** An overview line shows the same terms and figures as its loan's own ledger. */
  predicate AgreesWithLedger(s: Store, e: OverviewEntry) {
    && e.loanId in s.loans
    && var v := GetLedger(s, e.loanId).value;
       && e.principal == v.principal && e.totalAmount == v.totalAmount && e.emiAmount == v.monthlyEmi
       && e.amountPaid == v.amountPaid && e.emisLeft == v.emisLeft
  }

  /**
    Every line of a customer's overview agrees with the ledger of the loan it
    names: same principal, total and EMI, same amount paid, same EMIs left.
   */
  lemma OverviewAgreesWithLedger(s: Store, c: CustomerId)
    requires GetOverview(s, c).Success?
    ensures var o := GetOverview(s, c).value;
            forall i :: 0 <= i < |o.loans| ==> AgreesWithLedger(s, o.loans[i])
  {
    var o := GetOverview(s, c).value;
    var ps := CustomerLoans(s, c);
    forall i | 0 <= i < |o.loans| ensures AgreesWithLedger(s, o.loans[i]) {
      assert o.loans[i].loanId == s.created[ps[i]];
    }
  }

  /** The ids of the customer's loans. */
  ghost function CustomerLoanIds(s: Store, c: CustomerId): set<LoanId> {
    set k | k in s.loans && s.loans[k].customerId == c
  }

  /**
    The overview reports "no loans" exactly when the customer owns none, which
    is also what an unknown customer gets.
   */
  lemma OverviewNotFoundIff(s: Store, c: CustomerId)
    requires Valid(s)
    ensures GetOverview(s, c).Failure? <==> CustomerLoanIds(s, c) == {}
  {
    CustomerLoanIdSeqFacts(s, c);
    NoIdsIffNoLoans(s, c);
  }

  /** The customer's id list is empty exactly when the set it enumerates is. */
  lemma NoIdsIffNoLoans(s: Store, c: CustomerId)
    requires (set x | x in CustomerLoanIdSeq(s, c)) == CustomerLoanIds(s, c)
    ensures CustomerLoans(s, c) == [] <==> CustomerLoanIds(s, c) == {}
  {
    var ids := CustomerLoanIdSeq(s, c);
    assert |ids| == |CustomerLoans(s, c)|;
    if ids != [] {
      assert ids[0] in (set x | x in ids);
      assert ids[0] in CustomerLoanIds(s, c);
    } else {
      assert (set x | x in ids) == {};
    }
  }

  /** Where in the creation log a loan of a valid store was recorded. */
  lemma CreationPosition(s: Store, k: LoanId) returns (p: nat)
    requires Valid(s) && k in s.loans
    ensures p < |s.created| && s.created[p] == k
  {
    assert k in s.created;
    p :| 0 <= p < |s.created| && s.created[p] == k;
  }

  /** The overview's entries are the entries of the customer's loans, in order. */
  lemma OverviewEntries(s: Store, c: CustomerId)
    requires GetOverview(s, c).Success?
    ensures var o, ps := GetOverview(s, c).value, CustomerLoans(s, c);
            forall i :: 0 <= i < |ps| ==> o.loans[i] == EntryFor(s, s.created[ps[i]])
  {
  }

  /** A sequence without repeats has as many elements as its set of elements. */
  lemma {:induction false} DistinctCard<T>(xs: seq<T>)
    requires Distinct(xs)
    ensures |set x | x in xs| == |xs|
  {
    if xs != [] {
      DistinctCard(xs[1..]);
      assert (set x | x in xs) == {xs[0]} + (set x | x in xs[1..]);
      assert xs[0] !in xs[1..];
    }
  }

  /**
    `total_loans` is the number of loans the customer owns, and the overview
    lists each of them exactly once.
   */
  lemma OverviewCountsCustomerLoans(s: Store, c: CustomerId)
    requires Valid(s)
    requires GetOverview(s, c).Success?
    ensures var o := GetOverview(s, c).value;
            && o.totalLoans == |CustomerLoanIds(s, c)|
            && (set x | x in ListedIds(o)) == CustomerLoanIds(s, c)
            && Distinct(ListedIds(o))
  {
    var o := GetOverview(s, c).value;
    OverviewListsIdSeq(s, c);
    CustomerLoanIdSeqFacts(s, c);
    assert ListedIds(o) == CustomerLoanIdSeq(s, c);
  }

  /** The loan ids an overview lists, in its order. */
  function ListedIds(o: Overview): (ids: seq<LoanId>)
    ensures |ids| == |o.loans| && forall i :: 0 <= i < |ids| ==> ids[i] == o.loans[i].loanId
  {
    seq(|o.loans|, i requires 0 <= i < |o.loans| => o.loans[i].loanId)
  }

  /** The overview names, in order, the ids of the customer's loans, and counts them. */
  lemma OverviewListsIdSeq(s: Store, c: CustomerId)
    requires GetOverview(s, c).Success?
    ensures var o, ids := GetOverview(s, c).value, CustomerLoanIdSeq(s, c);
            && |o.loans| == |ids| && o.totalLoans == |ids|
            && forall i :: 0 <= i < |ids| ==> o.loans[i].loanId == ids[i]
  {
  }

  /** The ids of the customer's loans, newest first. */
  function CustomerLoanIdSeq(s: Store, c: CustomerId): seq<LoanId> {
    var ps := CustomerLoans(s, c);
    seq(|ps|, i requires 0 <= i < |ps| => s.created[ps[i]])
  }

  /** In a valid store the customer's id list has no repeats and holds exactly their loans. */
  lemma CustomerLoanIdSeqFacts(s: Store, c: CustomerId)
    requires Valid(s)
    ensures Distinct(CustomerLoanIdSeq(s, c))
    ensures (set x | x in CustomerLoanIdSeq(s, c)) == CustomerLoanIds(s, c)
    ensures |CustomerLoanIds(s, c)| == |CustomerLoanIdSeq(s, c)|
  {
    var ps := CustomerLoans(s, c);
    var ids := CustomerLoanIdSeq(s, c);
    forall k | k in CustomerLoanIds(s, c) ensures k in ids {
      var p := CreationPosition(s, k);
      assert Owns(s.created, s.loans, c, p);
      var i :| 0 <= i < |ps| && ps[i] == p;
      assert ids[i] == k;
    }
    DistinctCard(ids);
  }

  /** The position of the first occurrence of x. */
  function IndexOf<T(==)>(xs: seq<T>, x: T): (r: nat)
    requires x in xs
    ensures r < |xs| && xs[r] == x
    ensures forall j :: 0 <= j < r ==> xs[j] != x
  {
    if xs[0] == x then 0 else 1 + IndexOf(xs[1..], x)
  }

  /** Loans are listed most recently created first. */
  lemma OverviewNewestFirst(s: Store, c: CustomerId)
    requires Valid(s)
    requires GetOverview(s, c).Success?
    ensures var o := GetOverview(s, c).value;
            forall i, j :: 0 <= i < j < |o.loans| ==>
              IndexOf(s.created, o.loans[i].loanId) > IndexOf(s.created, o.loans[j].loanId)
  {
    var o := GetOverview(s, c).value;
    var ps := CustomerLoans(s, c);
    forall i | 0 <= i < |o.loans| ensures IndexOf(s.created, o.loans[i].loanId) == ps[i] {
      var r := IndexOf(s.created, o.loans[i].loanId);
      assert s.created[r] == s.created[ps[i]];
    }
  }

  /**
    Each overview entry's interest is its total less its principal, and is
    the interest quoted at creation, whenever the principal is whole cents.
   */
  lemma OverviewInterestIsTotalLessPrincipal(s: Store, c: CustomerId)
    requires Valid(s)
    requires GetOverview(s, c).Success?
    ensures var o := GetOverview(s, c).value;
            forall i :: 0 <= i < |o.loans| && IsCents(o.loans[i].principal) ==>
              && o.loans[i].totalInterest == o.loans[i].totalAmount - o.loans[i].principal
              && o.loans[i].totalInterest
                 == Quote(o.loans[i].principal, s.loans[o.loans[i].loanId].years,
                          s.loans[o.loans[i].loanId].interestRate).totalInterest
  {
    var o := GetOverview(s, c).value;
    var ps := CustomerLoans(s, c);
    OverviewEntries(s, c);
    forall i | 0 <= i < |o.loans| && IsCents(o.loans[i].principal)
      ensures o.loans[i].totalInterest == o.loans[i].totalAmount - o.loans[i].principal
      ensures o.loans[i].totalInterest
              == Quote(o.loans[i].principal, s.loans[o.loans[i].loanId].years,
                       s.loans[o.loans[i].loanId].interestRate).totalInterest
    {
      EntryInterest(s, s.created[ps[i]]);
    }
  }

  /** The overview line of a whole-cent loan shows its total less its principal, the quoted interest. */
  lemma EntryInterest(s: Store, k: LoanId)
    requires Valid(s) && k in s.loans && IsCents(s.loans[k].principal)
    ensures var e, l := EntryFor(s, k), s.loans[k];
            && e.loanId == k
            && e.totalInterest == e.totalAmount - e.principal
            && e.totalInterest == Quote(e.principal, l.years, l.interestRate).totalInterest
  {
    var l := s.loans[k];
    QuoteTotalIsPrincipalPlusInterest(l.principal, l.years, l.interestRate);
    Round2OfCents(Quote(l.principal, l.years, l.interestRate).totalInterest);
  }

  /**
    100000 at 10% for 2 years, then one EMI of 5000: the receipt shows
    115000 outstanding and 23 EMIs left.
   */
  lemma ScenarioFirstEmiPayment()
    ensures var c := CreateLoan(EmptyStore, LoanRequest(Some("CUST001"), Some(100000.0), Some(2.0), Some(10.0)), "L1");
            && c.response == Success(LoanCreated("L1", "CUST001", 120000.0, 5000.0, 20000.0))
            && RecordPayment(c.store, "L1", Some(5000.0), Some("EMI"), "P1").response
               == Success(PaymentReceipt("P1", "L1", 115000.0, Finite(23)))
  {
    QuoteExample();
    var c := CreateLoan(EmptyStore, LoanRequest(Some("CUST001"), Some(100000.0), Some(2.0), Some(10.0)), "L1");
    assert c.store.payments == [];
    assert AmountPaid([], "L1") == 0.0;
    Round2OfCents(115000.0);
    assert Ceil(115000.0 / 5000.0) == 23;
  }

  /**
    A loan owing 1200 that receives a lump sum of 1500 is not rejected: the
    receipt shows a balance of -300 and no EMIs left.
   */
  lemma ScenarioOverpayment()
    ensures var c := CreateLoan(EmptyStore, LoanRequest(Some("CUST002"), Some(1000.0), Some(1.0), Some(20.0)), "L1");
            && c.response.Success? && c.response.value.totalAmountPayable == 1200.0
            && RecordPayment(c.store, "L1", Some(1500.0), Some("LUMP_SUM"), "P1").response
               == Success(PaymentReceipt("P1", "L1", -300.0, Finite(0)))
  {
    OverpaymentQuote();
    Round2OfCents(-300.0);
    var c := CreateLoan(EmptyStore, LoanRequest(Some("CUST002"), Some(1000.0), Some(1.0), Some(20.0)), "L1");
    var l := c.store.loans["L1"];
    assert l.totalAmount == 1200.0 && l.monthlyEmi == 100.0;
    assert c.store.payments == [];
    assert AmountPaid([], "L1") == 0.0;
    assert Ceil(-300.0 / 100.0) == -3;
  }

  /** 1000 at 20% for a year: 200 interest, 1200 total, 100.00 a month. */
  lemma OverpaymentQuote()
    ensures Quote(1000.0, 1.0, 20.0) == LoanFigures(200.0, 1200.0, 100.0)
  {
    Round2OfCents(200.0);
    Round2OfCents(1200.0);
    Round2OfCents(100.0);
  }
}
