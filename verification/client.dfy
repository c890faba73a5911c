/**
  The two pieces of arithmetic the browser client does on its own: the live
  quote shown while a loan form is filled in, and the status badge and
  summary totals of the account overview page.
 */
module Client {
  import opened Wrappers
  import opened Money
  import opened LoanCalculator
  import opened Ledger
  import opened Handlers

  // ---------------------------------------------------------------------
  // Loan form preview
  // ---------------------------------------------------------------------

  /** A form input: left empty, or holding the number `parseFloat` reads from it. */
  datatype FormField = Empty | Entered(value: real)

  datatype LoanForm = LoanForm(loanAmount: FormField, loanPeriodYears: FormField, interestRateYearly: FormField)

  datatype PreviewFigures = PreviewFigures(
    principal: real,
    totalInterest: real,
    totalAmount: real,
    monthlyEmi: real)

  predicate AllEntered(f: LoanForm) {
    f.loanAmount.Entered? && f.loanPeriodYears.Entered? && f.interestRateYearly.Entered?
  }

  /**
    The preview. It is shown exactly when all three inputs are filled in,
    echoes the principal unrounded, and its three rounded figures are the
    ones the server quotes for the same numbers. An entered 0 counts as
    filled in (the inputs are non-empty strings), so no positivity is checked.
   */
  function Preview(f: LoanForm): (r: Option<PreviewFigures>)
    requires AllEntered(f) ==> f.loanPeriodYears.value != 0.0
    ensures r.Some? <==> AllEntered(f)
    ensures r.Some? ==> r.value.principal == f.loanAmount.value
    ensures r.Some? ==>
              var q := Quote(f.loanAmount.value, f.loanPeriodYears.value, f.interestRateYearly.value);
              && r.value.totalInterest == q.totalInterest
              && r.value.totalAmount == q.totalAmount
              && r.value.monthlyEmi == q.monthlyEmi
  {
    if AllEntered(f) then
      var principal := f.loanAmount.value;
      var years := f.loanPeriodYears.value;
      var rate := f.interestRateYearly.value;
      var totalInterest := principal * years * (rate / 100.0);
      var totalAmount := principal + totalInterest;
      var monthlyEmi := totalAmount / (years * 12.0);
      QuoteByFormula(principal, years, rate);
      Some(PreviewFigures(principal, Round2(totalInterest), Round2(totalAmount), Round2(monthlyEmi)))
    else
      None
  }

  /** The server's quote, written out as the client's formula writes it. */
  lemma QuoteByFormula(principal: real, years: real, rate: real)
    requires years != 0.0
    ensures var totalInterest := principal * years * (rate / 100.0);
            var totalAmount := principal + totalInterest;
            Quote(principal, years, rate)
            == LoanFigures(Round2(totalInterest), Round2(totalAmount), Round2(totalAmount / (years * 12.0)))
  {
  }

  /**
    A form whose numbers the server accepts previews exactly the total, EMI
    and interest the server then reports for the new loan.
   */
  lemma PreviewMatchesCreatedLoan(f: LoanForm, s: Store, customerId: string, loanId: LoanId)
    requires AllEntered(f)
    requires CreateLoan(s, LoanRequest(Some(customerId), Some(f.loanAmount.value),
                                       Some(f.loanPeriodYears.value),
                                       Some(f.interestRateYearly.value)), loanId).response.Success?
    ensures var created := CreateLoan(s, LoanRequest(Some(customerId), Some(f.loanAmount.value),
                                                     Some(f.loanPeriodYears.value),
                                                     Some(f.interestRateYearly.value)), loanId).response.value;
            var p := Preview(f).value;
            && p.totalAmount == created.totalAmountPayable
            && p.monthlyEmi == created.monthlyEmi
            && p.totalInterest == created.totalInterest
  {
  }

  // ---------------------------------------------------------------------
  // Account overview status badge
  // ---------------------------------------------------------------------

  datatype Badge = PaidOff | AlmostPaid | Active

  /**
    `getStatusBadge`: no EMIs left is "Paid Off", one to three is "Almost
    Paid", more is "Active". A null count (zero EMI) fails `=== 0` but passes
    `<= 3` in JavaScript, so it shows "Almost Paid".
   */
  function StatusBadge(e: EmiCount): (b: Badge)
    ensures e.Finite? ==> (b == PaidOff <==> e.n == 0)
    ensures e.Finite? ==> (b == AlmostPaid <==> 1 <= e.n <= 3)
    ensures e.Finite? ==> (b == Active <==> e.n > 3)
    ensures e.Null? ==> b == AlmostPaid
  {
    match e
    case Null => AlmostPaid
    case Finite(n) => if n == 0 then PaidOff else if n <= 3 then AlmostPaid else Active
  }

  /**
    For a positive EMI the badge reads the balance directly: "Paid Off" when
    nothing is owed, "Almost Paid" when at most three EMIs' worth is owed,
    "Active" otherwise.
   */
  lemma BadgeReflectsBalance(balance: real, emi: real)
    requires emi > 0.0
    ensures StatusBadge(EmisLeft(balance, emi)) == PaidOff <==> balance <= 0.0
    ensures StatusBadge(EmisLeft(balance, emi)) == AlmostPaid <==> 0.0 < balance <= 3.0 * emi
    ensures StatusBadge(EmisLeft(balance, emi)) == Active <==> balance > 3.0 * emi
  {
    EmisLeftCovers(balance, emi);
    var n: int := EmisLeft(balance, emi).n;
    if n <= 3 {
      AtMostThreeEmis(n as real, emi, balance);
    } else {
      MoreThanThreeEmis((n - 1) as real, emi, balance);
    }
  }

  /** At most three instalments that cover the balance mean it is at most three EMIs. */
  lemma AtMostThreeEmis(count: real, emi: real, balance: real)
    requires count <= 3.0 && emi > 0.0 && balance <= count * emi
    ensures balance <= 3.0 * emi
  {
    MulMonotone(count, 3.0, emi);
  }

  /** At least three instalments that fall short of the balance mean it exceeds three EMIs. */
  lemma MoreThanThreeEmis(fewer: real, emi: real, balance: real)
    requires fewer >= 3.0 && emi > 0.0 && fewer * emi < balance
    ensures balance > 3.0 * emi
  {
    MulMonotone(3.0, fewer, emi);
  }

  // ---------------------------------------------------------------------
  // Account overview summary totals
  // ---------------------------------------------------------------------

  /**
    "Total Principal": the sum of the listed principals. When every principal
    is positive it is positive exactly when some loan is listed.
   */
  function TotalPrincipal(es: seq<OverviewEntry>): (r: real)
    ensures (forall i :: 0 <= i < |es| ==> es[i].principal > 0.0) ==> (r > 0.0 <==> es != [])
  {
    if es == [] then 0.0
    else
      assert forall i :: 1 <= i < |es| ==> es[i] == es[1..][i - 1];
      es[0].principal + TotalPrincipal(es[1..])
  }

  /**
    "Total Paid" and "Total Amount Paid": the sum of the listed amounts paid.
    When none is negative it is never negative, and 0 exactly when every
    listed loan shows nothing paid.
   */
  function TotalPaid(es: seq<OverviewEntry>): (r: real)
    ensures (forall i :: 0 <= i < |es| ==> es[i].amountPaid >= 0.0) ==>
              r >= 0.0 && (r == 0.0 <==> forall i :: 0 <= i < |es| ==> es[i].amountPaid == 0.0)
  {
    if es == [] then 0.0
    else
      assert forall i :: 1 <= i < |es| ==> es[i] == es[1..][i - 1];
      es[0].amountPaid + TotalPaid(es[1..])
  }

  /** "Total Amount Owed": the sum of the listed contract totals, never negative when none is. */
  function TotalOwed(es: seq<OverviewEntry>): (r: real)
    ensures (forall i :: 0 <= i < |es| ==> es[i].totalAmount >= 0.0) ==> r >= 0.0
  {
    if es == [] then 0.0
    else
      assert forall i :: 1 <= i < |es| ==> es[i] == es[1..][i - 1];
      es[0].totalAmount + TotalOwed(es[1..])
  }

  /**
    "Outstanding Balance": the sum of each loan's total less its amount paid,
    which is the total owed less the total paid.
   */
  function OutstandingBalance(es: seq<OverviewEntry>): (r: real)
    ensures r == TotalOwed(es) - TotalPaid(es)
  {
    if es == [] then 0.0 else (es[0].totalAmount - es[0].amountPaid) + OutstandingBalance(es[1..])
  }

  /** What `sum + emis_left` adds: a null count adds nothing. */
  function EmiValue(e: EmiCount): nat {
    match e
    case Finite(n) => n
    case Null => 0
  }

  /**
    "Total EMIs Left": never negative, and 0 exactly when every listed loan
    shows no EMIs left (or a null count).
   */
  function TotalEmisLeft(es: seq<OverviewEntry>): (r: int)
    ensures r >= 0
    ensures r == 0 <==> forall i :: 0 <= i < |es| ==> EmiValue(es[i].emisLeft) == 0
  {
    if es == [] then 0
    else
      var rest := TotalEmisLeft(es[1..]);
      assert forall i :: 1 <= i < |es| ==> es[i] == es[1..][i - 1];
      EmiValue(es[0].emisLeft) + rest
  }

  /**
    The summary sums fold left to right as `reduce` does: adding one more
    loan at the end adds exactly its own figure.
   */
  lemma {:induction false} TotalPrincipalAppend(es: seq<OverviewEntry>, e: OverviewEntry)
    ensures TotalPrincipal(es + [e]) == TotalPrincipal(es) + e.principal
  {
    if es != [] {
      assert (es + [e])[1..] == es[1..] + [e];
      TotalPrincipalAppend(es[1..], e);
    }
  }

  lemma {:induction false} TotalPaidAppend(es: seq<OverviewEntry>, e: OverviewEntry)
    ensures TotalPaid(es + [e]) == TotalPaid(es) + e.amountPaid
  {
    if es != [] {
      assert (es + [e])[1..] == es[1..] + [e];
      TotalPaidAppend(es[1..], e);
    }
  }

  lemma {:induction false} TotalOwedAppend(es: seq<OverviewEntry>, e: OverviewEntry)
    ensures TotalOwed(es + [e]) == TotalOwed(es) + e.totalAmount
  {
    if es != [] {
      assert (es + [e])[1..] == es[1..] + [e];
      TotalOwedAppend(es[1..], e);
    }
  }

  lemma {:induction false} TotalEmisLeftAppend(es: seq<OverviewEntry>, e: OverviewEntry)
    ensures TotalEmisLeft(es + [e]) == TotalEmisLeft(es) + EmiValue(e.emisLeft)
  {
    if es != [] {
      assert (es + [e])[1..] == es[1..] + [e];
      TotalEmisLeftAppend(es[1..], e);
    }
  }

  /**
    In a valid store, the "Total Principal" of any overview the server sends
    is positive: at least one loan is listed and each was created with a
    positive principal.
   */
  lemma OverviewTotalPrincipalPositive(s: Store, c: CustomerId)
    requires Valid(s)
    requires GetOverview(s, c).Success?
    ensures TotalPrincipal(GetOverview(s, c).value.loans) > 0.0
  {
    var es := GetOverview(s, c).value.loans;
    assert forall i :: 0 <= i < |es| ==> es[i].principal > 0.0;
  }
}
