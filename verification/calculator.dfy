/**
  The simple-interest quote computed once when a loan is originated
  (`calculateLoanDetails`). Interest is principal x years x rate%, the total is
  principal plus interest, and the EMI spreads the total evenly over the
  months of the term. Each figure is rounded to cents on its own; the EMI is
  divided from the unrounded total.
 */
module LoanCalculator {
  import opened Money

  datatype LoanFigures = LoanFigures(totalInterest: real, totalAmount: real, monthlyEmi: real)

  /** Simple interest over the whole term, before any rounding. */
  function ExactInterest(principal: real, years: real, rate: real): real {
    principal * years * (rate / 100.0)
  }

  /** Principal plus interest, before any rounding. */
  function ExactTotal(principal: real, years: real, rate: real): real {
    principal + ExactInterest(principal, years, rate)
  }

  /**
    The quote. Every figure is a whole number of cents within half a cent of
    its exact value, and positive terms give non-negative figures.
   */
  function Quote(principal: real, years: real, rate: real): (q: LoanFigures)
    requires years != 0.0
    ensures IsCents(q.totalInterest) && IsCents(q.totalAmount) && IsCents(q.monthlyEmi)
    ensures -0.005 <= q.totalInterest - ExactInterest(principal, years, rate) <= 0.005
    ensures -0.005 <= q.totalAmount - ExactTotal(principal, years, rate) <= 0.005
    ensures -0.005 <= q.monthlyEmi - ExactTotal(principal, years, rate) / (years * 12.0) <= 0.005
    ensures principal > 0.0 && years > 0.0 && rate > 0.0 ==>
              q.totalInterest >= 0.0 && q.totalAmount >= 0.0 && q.monthlyEmi >= 0.0
  {
    var totalInterest := principal * years * (rate / 100.0);
    var totalAmount := principal + totalInterest;
    var monthlyEmi := totalAmount / (years * 12.0);
    assert principal > 0.0 && years > 0.0 && rate > 0.0 ==> totalInterest > 0.0 && monthlyEmi > 0.0 by {
      if principal > 0.0 && years > 0.0 && rate > 0.0 {
        assert principal * years > 0.0;
        assert totalAmount > 0.0 && years * 12.0 > 0.0;
      }
    }
    LoanFigures(Round2(totalInterest), Round2(totalAmount), Round2(monthlyEmi))
  }

  /**
    When the principal is a whole number of cents and the terms are
    non-negative, the rounded total is exactly the principal plus the rounded
    interest.
   */
  lemma QuoteTotalIsPrincipalPlusInterest(principal: real, years: real, rate: real)
    requires IsCents(principal) && principal >= 0.0 && years > 0.0 && rate >= 0.0
    ensures Quote(principal, years, rate).totalAmount
            == principal + Quote(principal, years, rate).totalInterest
  {
    var i := ExactInterest(principal, years, rate);
    assert principal * years >= 0.0;
    assert i >= 0.0;
    Round2ShiftByCents(principal, i);
  }

  /**
    With a principal of fractional cents the identity can fail: 0.004 at 100%
    for one year has interest 0.004 (shown as 0.00) but total 0.008 (shown as
    0.01).
   */
  lemma QuoteTotalDriftsOnSubCentPrincipal()
    ensures Quote(0.004, 1.0, 100.0).totalAmount
            != 0.004 + Quote(0.004, 1.0, 100.0).totalInterest
  {
    assert Round2(0.004) == 0.0 by { assert (0.004 * 100.0 + 0.5).Floor == 0; }
    assert Round2(0.008) == 0.01 by { assert (0.008 * 100.0 + 0.5).Floor == 1; }
  }

  /** 100000 at 10% for 2 years: 20000 interest, 120000 total, 5000.00 a month. */
  lemma QuoteExample()
    ensures Quote(100000.0, 2.0, 10.0) == LoanFigures(20000.0, 120000.0, 5000.0)
  {
    Round2OfCents(20000.0);
    Round2OfCents(120000.0);
    Round2OfCents(5000.0);
  }

  /**
    The EMI is divided from the unrounded total: 1 at 1.9988% for a year
    totals 1.019988 (shown as 1.02); the EMI is 0.084999 rounded to 0.08,
    whereas dividing the shown total would give 0.085, rounded to 0.09.
   */
  lemma QuoteEmiUsesUnroundedTotal()
    ensures Quote(1.0, 1.0, 1.9988).totalAmount == 1.02
    ensures Quote(1.0, 1.0, 1.9988).monthlyEmi == 0.08
    ensures Round2(Quote(1.0, 1.0, 1.9988).totalAmount / 12.0) == 0.09
  {
    assert ExactTotal(1.0, 1.0, 1.9988) == 1.019988;
    assert (1.019988 * 100.0 + 0.5).Floor == 102;
    assert (1.019988 / 12.0 * 100.0 + 0.5).Floor == 8;
    assert (1.02 / 12.0 * 100.0 + 0.5).Floor == 9;
  }

  /**
    A valid but tiny loan can have its EMI rounded to nothing: 0.05 at 1% for
    one year totals 0.0505 and owes 0.0042 a month, shown as 0.00.
   */
  lemma QuoteEmiCanRoundToZero()
    ensures Quote(0.05, 1.0, 1.0).totalAmount == 0.05
    ensures Quote(0.05, 1.0, 1.0).monthlyEmi == 0.0
  {
    assert ExactTotal(0.05, 1.0, 1.0) == 0.0505;
    assert (0.0505 * 100.0 + 0.5).Floor == 5;
    assert (0.0505 / 12.0 * 100.0 + 0.5).Floor == 0;
  }
}
