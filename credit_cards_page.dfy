/**
 * src/features/creditCards/CreditCardsPage.tsx: the portfolio totals, the
 * average utilisation, and each installment plan's progress.
 */
module CreditCardsPage {

  import opened Types
  import opened Lists
  import opened CreditCardWidget

  function OutstandingOf(c: CreditCard): real { c.outstandingBalance }

  function LimitOf(c: CreditCard): real { c.creditLimit }

  /** totalOutstanding (line 18). */
  function TotalOutstanding(cards: seq<CreditCard>): real
  {
    SumOf(cards, OutstandingOf)
  }

  /** totalLimit (line 19). */
  function TotalLimit(cards: seq<CreditCard>): real
  {
    SumOf(cards, LimitOf)
  }

  /** totalAvailable (line 20). */
  function TotalAvailable(cards: seq<CreditCard>): real
  {
    TotalLimit(cards) - TotalOutstanding(cards)
  }

  /** The portfolio's available credit is the sum of each card's available credit. */
  lemma {:induction false} TotalAvailableIsSum(cards: seq<CreditCard>)
    ensures TotalAvailable(cards) == SumOf(cards, AvailableCredit)
  {
    if cards != [] {
      TotalAvailableIsSum(cards[..|cards| - 1]);
    }
  }

  /** averageUtilization (line 21). */
  function AverageUtilization(cards: seq<CreditCard>): real
  {
    if TotalLimit(cards) > 0.0 then (TotalOutstanding(cards) / TotalLimit(cards)) * 100.0 else 0.0
  }

  /**
   * The average is the portfolio's own utilisation: multiplied back by the
   * total limit it gives the outstanding percentage points; and when every
   * card's balance lies between zero and its limit it lies between 0 and 100.
   */
  lemma AverageUtilizationSpec(cards: seq<CreditCard>)
    ensures TotalLimit(cards) > 0.0 ==>
      AverageUtilization(cards) * TotalLimit(cards) == TotalOutstanding(cards) * 100.0
    ensures TotalLimit(cards) <= 0.0 ==> AverageUtilization(cards) == 0.0
    ensures (forall j | 0 <= j < |cards| :: 0.0 <= cards[j].outstandingBalance <= cards[j].creditLimit) ==>
      0.0 <= AverageUtilization(cards) <= 100.0
  {
    var o, l := TotalOutstanding(cards), TotalLimit(cards);
    if forall j | 0 <= j < |cards| :: 0.0 <= cards[j].outstandingBalance <= cards[j].creditLimit {
      SumNonNegative(cards, OutstandingOf);
      SumLe(cards, OutstandingOf, LimitOf);
      if l > 0.0 {
        assert 0.0 <= o / l <= 1.0;
      }
    }
  }

  // ---------------------------------------------------------------------
  // Installment plans

  /** progress (line 80): the paid share of the installments, in percent. */
  function InstallmentProgress(i: Installment): real
    requires i.totalInstallments != 0
  {
    (i.paidInstallments as real / i.totalInstallments as real) * 100.0
  }

  /** remaining (line 81): the installments still to pay. */
  function InstallmentRemaining(i: Installment): int
  {
    i.totalInstallments - i.paidInstallments
  }

  /** A part over a positive whole lies in [0, 1], is 1 only for the whole and 0 only for nothing. */
  lemma RatioBounds(p: real, t: real)
    requires 0.0 <= p <= t && t > 0.0
    ensures 0.0 <= p / t <= 1.0
    ensures p / t == 1.0 <==> p == t
    ensures p / t == 0.0 <==> p == 0.0
  {
    var q := p / t;
    assert q * t == p;
  }

  /**
   * For a plan with paid ≤ total and total ≥ 1 the progress lies in
   * [0, 100] and the remaining count is never negative; the plan shows 100
   * exactly when nothing remains, and 0 exactly when nothing is paid.
   */
  lemma InstallmentBounds(i: Installment)
    requires 0 <= i.paidInstallments <= i.totalInstallments && i.totalInstallments >= 1
    ensures 0.0 <= InstallmentProgress(i) <= 100.0
    ensures InstallmentRemaining(i) >= 0
    ensures InstallmentProgress(i) == 100.0 <==> InstallmentRemaining(i) == 0
    ensures InstallmentProgress(i) == 0.0 <==> i.paidInstallments == 0
  {
    RatioBounds(i.paidInstallments as real, i.totalInstallments as real);
  }
}
