/**
 * src/features/tabung/WithdrawMoneyModal.tsx: taking money out of a tabung.
 * The amount check against the saved amount, the request the modal sends,
 * the quick-amount buttons and the previewed remainder.
 */
module WithdrawMoneyModal {

  import opened Wrappers
  import opened Types
  import opened Text
  import opened FormInput

  const WithdrawFailed := "Failed to withdraw money"

  /**
   * The amounts validateForm lets through: a positive amount that is no more
   * than the tabung's saved amount (not compared when there is no tabung),
   * and any text that is not a number.
   */
  predicate WithdrawAccepted(tabung: Option<Tabung>, amount: Parsed<real>)
  {
    amount.NotANumber? || (amount.Num? && amount.value > 0.0 && (tabung.None? || amount.value <= tabung.value.savedAmount))
  }

  /** validateForm (lines 35-46). */
  method ValidateForm(tabung: Option<Tabung>, amount: Parsed<real>) returns (newErrors: map<string, string>, valid: bool)
    ensures newErrors.Keys <= {"amount"}
    ensures valid <==> newErrors == map[]
    ensures valid <==> WithdrawAccepted(tabung, amount)
    ensures MissingOrNonPositive(amount) ==> newErrors == map["amount" := "Amount must be greater than 0"]
    ensures tabung.Some? && amount.Num? && amount.value > 0.0 && amount.value > tabung.value.savedAmount ==>
      newErrors == map["amount" := "Insufficient saved amount"]
  {
    newErrors := map[];
    var n := ParseFloat(amount);
    if amount.Blank? || (n.Some? && n.value <= 0.0) {
      newErrors := newErrors["amount" := "Amount must be greater than 0"];
    } else if tabung.Some? && n.Some? && n.value > tabung.value.savedAmount {
      newErrors := newErrors["amount" := "Insufficient saved amount"];
    }
    valid := |newErrors| == 0;
  }

  /**
   * handleSubmit (lines 48-63), with the request's outcome as `rejection`:
   * `None` when it succeeds and the modal closes, or the failure's message.
   */
  method HandleSubmit(tabung: Option<Tabung>, amount: Parsed<real>, reason: string, rejection: Option<Option<string>>)
    returns (request: Option<TabungAmountRequest>, errors: Option<map<string, string>>, closed: bool)
    ensures tabung.None? ==> request.None? && errors.None? && !closed
    ensures tabung.Some? && request.None? ==> errors.Some? && "amount" in errors.value && !closed
    ensures request.Some? <==> tabung.Some? && WithdrawAccepted(tabung, amount)
    ensures request.Some? ==> request.value == TabungAmountRequest(tabung.value.id, ParseFloat(amount), TrimmedOrNone(reason))
    ensures request.Some? && amount.Num? ==> amount.value <= tabung.value.savedAmount
    ensures request.Some? ==> (closed <==> rejection.None?)
    ensures request.Some? && rejection.None? ==> errors == Some(map[])
    ensures request.Some? && rejection.Some? ==> errors == Some(SubmitFailure(rejection.value, WithdrawFailed))
  {
    if tabung.None? {
      return None, None, false;
    }
    var newErrors, valid := ValidateForm(tabung, amount);
    errors := Some(newErrors);
    if !valid {
      return None, errors, false;
    }
    request := Some(TabungAmountRequest(tabung.value.id, ParseFloat(amount), TrimmedOrNone(reason)));
    if rejection.None? {
      closed := true;
    } else {
      errors := Some(SubmitFailure(rejection.value, WithdrawFailed));
      closed := false;
    }
  }

  // ---------------------------------------------------------------------
  // Quick amounts (lines 71-76, 114)

  /** The percentages of the quick-amount buttons. */
  const QuickPercentages: seq<int> := [25, 50, 75, 100]

  /** handleQuickAmount (lines 71-76): fills the field, or leaves it when there is no tabung. */
  function QuickAmount(tabung: Option<Tabung>, percentage: int, current: Parsed<real>): (r: Parsed<real>)
    ensures tabung.None? ==> r == current
    ensures tabung.Some? ==> r.Num? && WholeCents(r.value)
  {
    if tabung.Some? then Num(Round2(tabung.value.savedAmount * percentage as real / 100.0)) else current
  }

  /**
   * Every quick amount of a whole-cent saved amount passes the "Insufficient
   * saved amount" check, and 100% is exactly the saved amount; from 2 cents
   * up every button's amount is accepted outright.
   */
  lemma QuickAmountsAccepted(t: Tabung, percentage: int, current: Parsed<real>)
    requires WholeCents(t.savedAmount) && t.savedAmount >= 0.0
    requires percentage in QuickPercentages
    ensures QuickAmount(Some(t), percentage, current).value <= t.savedAmount
    ensures percentage == 100 ==> QuickAmount(Some(t), percentage, current) == Num(t.savedAmount)
    ensures t.savedAmount >= 0.02 ==> WithdrawAccepted(Some(t), QuickAmount(Some(t), percentage, current))
  {
    var s := t.savedAmount;
    var x := s * percentage as real / 100.0;
    assert x <= s;
    Round2Bounds(x, s);
    if s >= 0.02 {
      assert x * 100.0 + 0.5 >= 1.0;
      assert (x * 100.0 + 0.5).Floor >= 1;
    }
  }

  /** A single cent rounds to nothing at 25%, so that button's amount is rejected as not positive. */
  lemma QuickAmountOfOneCent(t: Tabung, current: Parsed<real>)
    requires t.savedAmount == 0.01
    ensures QuickAmount(Some(t), 25, current) == Num(0.0)
    ensures !WithdrawAccepted(Some(t), QuickAmount(Some(t), 25, current))
  {
    assert (0.0025 * 100.0 + 0.5).Floor == 0;
  }

  // ---------------------------------------------------------------------
  // Preview (lines 81, 130-137)

  /** newAmount (line 81): `Math.max(saved - parseFloat(amount || '0'), 0)`, NaN staying NaN. */
  function NewAmount(t: Tabung, amount: Parsed<real>): (r: Option<real>)
    ensures r.None? <==> amount.NotANumber?
    ensures r.Some? ==> r.value >= 0.0
  {
    match ParseOrZeroText(amount)
    case None => None
    case Some(v) => Some(if t.savedAmount - v > 0.0 then t.savedAmount - v else 0.0)
  }

  /**
   * For an accepted amount the previewed remainder is exactly what is left
   * after taking the amount out: nothing is clipped away.
   */
  lemma NewAmountAfterAccepted(t: Tabung, amount: Parsed<real>)
    requires amount.Num? && WithdrawAccepted(Some(t), amount)
    ensures PreviewShown(amount, map[])
    ensures NewAmount(t, amount) == Some(t.savedAmount - amount.value)
    ensures NewAmount(t, amount).value + amount.value == t.savedAmount
  {
  }
}
