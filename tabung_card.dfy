/**
 * src/features/tabung/TabungCard.tsx: the figures and buttons of one
 * savings goal's card.
 */
module TabungCard {

  import opened Wrappers
  import opened Types
  import opened FormInput
  import WithdrawMoneyModal

  /** progress (line 26): `progressPercentage || 0`. */
  function Progress(t: Tabung): real
  {
    t.progressPercentage.GetOr(0.0)
  }

  /** remaining (line 27): `remainingAmount || 0`. */
  function Remaining(t: Tabung): real
  {
    t.remainingAmount.GetOr(0.0)
  }

  /** The progress bar's width in percent (line 80): `Math.min(progress, 100)`. */
  function BarWidth(t: Tabung): real
  {
    if Progress(t) <= 100.0 then Progress(t) else 100.0
  }

  /** The Remaining row (line 85). */
  function ShowRemaining(t: Tabung): bool
  {
    Remaining(t) > 0.0
  }

  /** The Save button is disabled (line 113). */
  function SaveDisabled(t: Tabung): bool
  {
    t.status == Completed
  }

  /** The Withdraw button is disabled (line 122). */
  function WithdrawDisabled(t: Tabung): bool
  {
    t.savedAmount == 0.0
  }

  /**
   * Missing figures read as 0, so the Remaining row is hidden; the bar never
   * passes 100 percent and shows the progress itself up to there.
   */
  lemma CardFigures(t: Tabung)
    ensures t.progressPercentage.None? ==> Progress(t) == 0.0 && BarWidth(t) == 0.0
    ensures t.remainingAmount.None? ==> !ShowRemaining(t)
    ensures BarWidth(t) <= 100.0
    ensures BarWidth(t) == Progress(t) <==> Progress(t) <= 100.0
    ensures Progress(t) >= 0.0 ==> BarWidth(t) >= 0.0
  {
  }

  /**
   * Save is disabled for a completed goal only. The Withdraw button agrees with
   * the withdraw modal's amount check as long as the saved amount is not
   * negative: it is disabled exactly when the check would reject every number.
   * With a negative saved amount the button stays enabled although no number
   * passes the check.
   */
  lemma CardButtons(t: Tabung)
    ensures SaveDisabled(t) <==> t.status == Completed
    ensures t.savedAmount >= 0.0 ==>
      (WithdrawDisabled(t) <==> forall x: real :: !WithdrawMoneyModal.WithdrawAccepted(Some(t), Num(x)))
    ensures t.savedAmount < 0.0 ==>
      !WithdrawDisabled(t) && forall x: real :: !WithdrawMoneyModal.WithdrawAccepted(Some(t), Num(x))
  {
    if t.savedAmount > 0.0 {
      assert WithdrawMoneyModal.WithdrawAccepted(Some(t), Num(t.savedAmount));
    }
  }
}
