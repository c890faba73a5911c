/**
  The loan store and the figures derived from it. Loans are immutable records
  keyed by id; `created` lists loan ids in creation order and stands in for
  the `created_at` timestamp; payments form an append-only log. Nothing
  derived (amount paid, balance, EMIs left) is ever stored: it is recomputed
  from the log on every read, as the server's queries do.
 */
module Ledger {
  import opened Wrappers
  import opened Money
  import opened LoanCalculator

  type LoanId = string
  type CustomerId = string
  type PaymentId = string

  datatype PaymentType = Emi | LumpSum

  /** A row of the loans table. `totalAmount` and `monthlyEmi` are fixed at creation. */
  datatype Loan = Loan(
    id: LoanId,
    customerId: CustomerId,
    principal: real,
    totalAmount: real,
    interestRate: real,
    years: real,
    monthlyEmi: real)

  /** A row of the payments table. `loanId` is not checked against the loans table. */
  datatype Payment = Payment(id: PaymentId, loanId: LoanId, amount: real, kind: PaymentType)

  datatype Store = Store(loans: map<LoanId, Loan>, created: seq<LoanId>, payments: seq<Payment>)

  const EmptyStore: Store := Store(map[], [], [])

  /** The value of a payment towards loanId: its amount if it is joined to that loan. */
  function Contribution(p: Payment, loanId: LoanId): real {
    if p.loanId == loanId then p.amount else 0.0
  }

  /**
    `COALESCE(SUM(p.amount), 0)` over the payments joined to loanId: never
    negative when every payment is positive, and 0 when none is joined.
   */
  function AmountPaid(ps: seq<Payment>, loanId: LoanId): (r: real)
    ensures (forall i :: 0 <= i < |ps| ==> ps[i].amount > 0.0) ==> r >= 0.0
    ensures (forall i :: 0 <= i < |ps| ==> ps[i].loanId != loanId) ==> r == 0.0
  {
    if ps == [] then 0.0
    else
      assert forall i :: 0 <= i < |ps| - 1 ==> ps[1..][i] == ps[i + 1];
      Contribution(ps[0], loanId) + AmountPaid(ps[1..], loanId)
  }

  /**
    Appending a payment raises a loan's amount paid by exactly that payment's
    amount if it is joined to the loan, and leaves it unchanged otherwise, so
    payments to other loans, orphans included, never move it.
   */
  lemma {:induction false} AmountPaidAppend(ps: seq<Payment>, p: Payment, loanId: LoanId)
    ensures AmountPaid(ps + [p], loanId) == AmountPaid(ps, loanId) + Contribution(p, loanId)
  {
    if ps == [] {
      assert ps + [p] == [p];
      assert [p][1..] == [];
    } else {
      assert (ps + [p])[1..] == ps[1..] + [p];
      AmountPaidAppend(ps[1..], p, loanId);
    }
  }

  /**
    The aggregation run the way a database runs it: one pass over the
    payments table, adding each payment joined to the loan.
   */
  method ComputeAmountPaid(ps: seq<Payment>, loanId: LoanId) returns (total: real)
    ensures total == AmountPaid(ps, loanId)
  {
    total := 0.0;
    var i := 0;
    while i < |ps|
      invariant 0 <= i <= |ps|
      invariant total == AmountPaid(ps[..i], loanId)
    {
      assert ps[..i + 1] == ps[..i] + [ps[i]];
      AmountPaidAppend(ps[..i], ps[i], loanId);
      if ps[i].loanId == loanId {
        total := total + ps[i].amount;
      }
      i := i + 1;
    }
    assert ps[..|ps|] == ps;
  }

  /**
    With positive payment amounts, a loan has paid nothing exactly when no
    payment is joined to it.
   */
  lemma {:induction false} AmountPaidZeroIffNoPayments(ps: seq<Payment>, loanId: LoanId)
    requires forall i :: 0 <= i < |ps| ==> ps[i].amount > 0.0
    ensures AmountPaid(ps, loanId) == 0.0 <==> forall i :: 0 <= i < |ps| ==> ps[i].loanId != loanId
  {
    if ps != [] {
      AmountPaidZeroIffNoPayments(ps[1..], loanId);
      if ps[0].loanId != loanId {
        forall i | 0 < i < |ps| ensures ps[i] == ps[1..][i - 1] { }
      }
    }
  }

  /**
    The positions in the payment log of the payments joined to loanId, most
    recently recorded first (log position stands in for `payment_date`):
    each such position once, strictly descending. `JoinedPositionsComplete`
    shows none is missing.
   */
  function JoinedPositions(ps: seq<Payment>, loanId: LoanId): (pos: seq<nat>)
    ensures forall i :: 0 <= i < |pos| ==> pos[i] < |ps| && ps[pos[i]].loanId == loanId
    ensures forall i, j :: 0 <= i < j < |pos| ==> pos[i] > pos[j]
  {
    if ps == [] then []
    else
      var n := |ps| - 1;
      assert forall q :: 0 <= q < n ==> ps[..n][q] == ps[q];
      (if ps[n].loanId == loanId then [n] else []) + JoinedPositions(ps[..n], loanId)
  }

  /** No payment joined to the loan is missing from its positions. */
  lemma {:induction false} JoinedPositionsComplete(ps: seq<Payment>, loanId: LoanId, p: nat)
    requires p < |ps| && ps[p].loanId == loanId
    ensures p in JoinedPositions(ps, loanId)
  {
    var n := |ps| - 1;
    if p < n {
      assert ps[..n][p] == ps[p];
      JoinedPositionsComplete(ps[..n], loanId, p);
    }
  }

  /**
    A loan's transaction history, `ORDER BY payment_date DESC`: the payment at
    each of its joined positions, in that newest-first order, so every joined
    payment is listed exactly once.
   */
  function Transactions(ps: seq<Payment>, loanId: LoanId): (ts: seq<Payment>)
    ensures var pos := JoinedPositions(ps, loanId);
            |ts| == |pos| && forall i :: 0 <= i < |ts| ==> ts[i] == ps[pos[i]]
  {
    if ps == [] then []
    else
      var n := |ps| - 1;
      var last := ps[n];
      assert forall q :: 0 <= q < n ==> ps[..n][q] == ps[q];
      (if last.loanId == loanId then [last] else []) + Transactions(ps[..n], loanId)
  }

  /** A loan's history is empty exactly when no payment is joined to it. */
  lemma {:induction false} TransactionsEmptyIff(ps: seq<Payment>, loanId: LoanId)
    ensures Transactions(ps, loanId) == [] <==> forall i :: 0 <= i < |ps| ==> ps[i].loanId != loanId
  {
    if ps != [] {
      var n := |ps| - 1;
      TransactionsEmptyIff(ps[..n], loanId);
      assert forall i :: 0 <= i < n ==> ps[..n][i] == ps[i];
    }
  }

  /** A newly recorded payment heads its own loan's history and no other's. */
  lemma TransactionsNewestFirst(ps: seq<Payment>, p: Payment, loanId: LoanId)
    ensures Transactions(ps + [p], loanId)
            == (if p.loanId == loanId then [p] else []) + Transactions(ps, loanId)
  {
    assert (ps + [p])[..|ps|] == ps;
  }

  /** The sum of the amounts of a list of payments. */
  function SumAmounts(ts: seq<Payment>): real {
    if ts == [] then 0.0 else ts[0].amount + SumAmounts(ts[1..])
  }

  /** The history a ledger lists adds up to the amount paid it reports. */
  lemma {:induction false} TransactionsSumToAmountPaid(ps: seq<Payment>, loanId: LoanId)
    ensures SumAmounts(Transactions(ps, loanId)) == AmountPaid(ps, loanId)
  {
    if ps != [] {
      var init, last := ps[..|ps| - 1], ps[|ps| - 1];
      assert ps == init + [last];
      var rest := Transactions(init, loanId);
      TransactionsSumToAmountPaid(init, loanId);
      AmountPaidAppend(init, last, loanId);
      TransactionsNewestFirst(init, last, loanId);
      if last.loanId == loanId {
        assert Transactions(ps, loanId) == [last] + rest;
        assert ([last] + rest)[1..] == rest;
        assert SumAmounts([last] + rest) == last.amount + SumAmounts(rest);
      } else {
        assert Transactions(ps, loanId) == rest;
      }
    }
  }

  /**
    `emis_left` as the server sends it. When the EMI is positive it is a
    count; when the EMI rounded to 0.00 the division yields Infinity or NaN,
    which JSON serialises as null, unless the balance is negative, where
    `Math.max(0, -Infinity)` is 0.
   */
  datatype EmiCount = Finite(n: nat) | Null

  /**
    `Math.max(0, Math.ceil(balance / emi))`. For a positive EMI this is a
    count that is 0 exactly when nothing is owed; `EmisLeftCovers` shows it
    is the fewest further instalments that cover the balance.
   */
  function EmisLeft(balance: real, emi: real): (r: EmiCount)
    ensures emi > 0.0 ==> r.Finite? && (r.n == 0 <==> balance <= 0.0)
    ensures emi == 0.0 ==> (r == Null <==> balance >= 0.0)
    ensures emi == 0.0 && balance < 0.0 ==> r == Finite(0)
  {
    if emi != 0.0 then
      var c := Ceil(balance / emi);
      assert emi > 0.0 ==> (c <= 0 <==> balance <= 0.0) by {
        if emi > 0.0 {
          CeilCovers(balance, emi);
        }
      }
      Finite(if c < 0 then 0 else c)
    else if balance < 0.0 then Finite(0)
    else Null
  }

  /**
    With a positive EMI, the EMIs left are the fewest further instalments
    that cover the balance: that many cover it, and one fewer would not.
   */
  lemma EmisLeftCovers(balance: real, emi: real)
    requires emi > 0.0
    ensures EmisLeft(balance, emi).n as real * emi >= balance
    ensures EmisLeft(balance, emi).n > 0 ==> (EmisLeft(balance, emi).n - 1) as real * emi < balance
  {
    CeilCovers(balance, emi);
  }

  /** The instalment count Math.ceil(balance / emi) covers the balance, and one fewer would not. */
  lemma CeilCovers(balance: real, emi: real)
    requires emi > 0.0
    ensures Ceil(balance / emi) as real * emi >= balance
    ensures ((Ceil(balance / emi) - 1) as real) * emi < balance
  {
    var q := balance / emi;
    var c := Ceil(q);
    assert q * emi == balance;
    MulMonotone(q, c as real, emi);
    MulStrict((c - 1) as real, q, emi);
    assert (c - 1) as real * emi < balance;
  }

  /** Paying more never raises the number of EMIs left. */
  lemma EmisLeftMonotone(lower: real, higher: real, emi: real)
    requires emi > 0.0 && lower <= higher
    ensures EmisLeft(lower, emi).n <= EmisLeft(higher, emi).n
  {
    EmisLeftCovers(lower, emi);
    EmisLeftCovers(higher, emi);
    var a, b := EmisLeft(lower, emi).n, EmisLeft(higher, emi).n;
    assert b as real * emi >= higher;
    if a > 0 {
      assert (a - 1) as real * emi < lower;
      assert b as real * emi - (a - 1) as real * emi > 0.0;
      assert (b as real - (a - 1) as real) * emi == b as real * emi - (a - 1) as real * emi;
      assert b as real - (a - 1) as real > 0.0;
    }
  }

  /** The row `getLoanStatus` returns: the loan joined with its amount paid. */
  datatype LoanStatus = LoanStatus(loan: Loan, amountPaid: real)

  /**
    `getLoanStatus` and the identical ledger query: None exactly when no loan
    has that id; otherwise that loan, joined with an amount paid that in a
    valid store is never negative.
   */
  function LoanRow(s: Store, loanId: LoanId): (r: Option<LoanStatus>)
    ensures r.Some? <==> loanId in s.loans
    ensures r.Some? ==> r.value.loan == s.loans[loanId]
    ensures r.Some? && Valid(s) ==> r.value.loan.id == loanId && r.value.amountPaid >= 0.0
  {
    if loanId in s.loans then
      Some(LoanStatus(s.loans[loanId], AmountPaid(s.payments, loanId)))
    else None
  }

  /**
    `total_amount - amount_paid`, not floored: nothing is owed exactly when
    the payments reach the total, and an overpaid loan goes negative.
   */
  function Balance(row: LoanStatus): (b: real)
    ensures b <= 0.0 <==> row.amountPaid >= row.loan.totalAmount
    ensures b < 0.0 <==> row.amountPaid > row.loan.totalAmount
  {
    row.loan.totalAmount - row.amountPaid
  }

  /** No element occurs twice. */
  predicate Distinct<T(==)>(xs: seq<T>) {
    forall i, j :: 0 <= i < j < |xs| ==> xs[i] != xs[j]
  }

  /** A loan as the create handler writes it: positive terms and the quote's figures. */
  predicate WellFormedLoan(l: Loan) {
    && l.principal > 0.0 && l.years > 0.0 && l.interestRate > 0.0
    && l.totalAmount == Quote(l.principal, l.years, l.interestRate).totalAmount
    && l.monthlyEmi == Quote(l.principal, l.years, l.interestRate).monthlyEmi
  }

  /**
    What the handlers maintain: the creation log lists every loan once, each
    loan is filed under its own id and was written by the create handler, and
    every payment is positive with a unique id.
   */
  ghost predicate Valid(s: Store) {
    && Distinct(s.created)
    && (forall k :: k in s.loans <==> k in s.created)
    && (forall k :: k in s.loans ==> s.loans[k].id == k && WellFormedLoan(s.loans[k]))
    && (forall i :: 0 <= i < |s.payments| ==> s.payments[i].amount > 0.0)
    && (forall i, j :: 0 <= i < j < |s.payments| ==> s.payments[i].id != s.payments[j].id)
  }

  /** The store the server starts from satisfies the invariant. */
  lemma EmptyStoreValid()
    ensures Valid(EmptyStore)
  {
  }
}
