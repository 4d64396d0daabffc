/**
 * src/features/tabung/SaveMoneyModal.tsx: moving money from the bank balance
 * into a tabung. The amount check, the request the modal sends, and the
 * figures it previews before the user confirms.
 */
module SaveMoneyModal {

  import opened Wrappers
  import opened Types
  import opened Text
  import opened FormInput

  const SaveFailed := "Failed to save money"

  /**
   * validateForm (lines 37-48). The amount must be present and positive, and
   * no more than the bank balance; text that is not a number gets past both
   * checks, since every comparison with NaN is false.
   */
  method ValidateForm(amount: Parsed<real>, bankBalance: real) returns (newErrors: map<string, string>, valid: bool)
    ensures newErrors.Keys <= {"amount"}
    ensures valid <==> newErrors == map[]
    ensures valid <==> amount.NotANumber? || (amount.Num? && 0.0 < amount.value <= bankBalance)
    ensures MissingOrNonPositive(amount) ==> newErrors == map["amount" := "Amount must be greater than 0"]
    ensures amount.Num? && amount.value > 0.0 && amount.value > bankBalance ==>
      newErrors == map["amount" := "Insufficient bank balance"]
  {
    newErrors := map[];
    var n := ParseFloat(amount);
    if amount.Blank? || (n.Some? && n.value <= 0.0) {
      newErrors := newErrors["amount" := "Amount must be greater than 0"];
    } else if n.Some? && n.value > bankBalance {
      newErrors := newErrors["amount" := "Insufficient bank balance"];
    }
    valid := |newErrors| == 0;
  }

  /**
   * handleSubmit (lines 50-65). Without a tabung nothing happens and the
   * errors stay as they were (`errors` is `None`); otherwise the form is
   * validated, and a valid form sends the tabung's id, the parsed amount and
   * the trimmed reason, an empty reason being left out. `rejection` is how
   * the request ends: `None` when it succeeds and the modal closes, or the
   * failure's message, which replaces the errors.
   */
  method HandleSubmit(tabung: Option<Tabung>, amount: Parsed<real>, reason: string, bankBalance: real,
                      rejection: Option<Option<string>>)
    returns (request: Option<TabungAmountRequest>, errors: Option<map<string, string>>, closed: bool)
    ensures tabung.None? ==> request.None? && errors.None? && !closed
    ensures tabung.Some? && request.None? ==> errors.Some? && "amount" in errors.value && !closed
    ensures request.Some? <==> tabung.Some? && (amount.NotANumber? || (amount.Num? && 0.0 < amount.value <= bankBalance))
    ensures request.Some? ==> request.value == TabungAmountRequest(tabung.value.id, ParseFloat(amount), TrimmedOrNone(reason))
    ensures request.Some? ==> (closed <==> rejection.None?)
    ensures request.Some? && rejection.None? ==> errors == Some(map[])
    ensures request.Some? && rejection.Some? ==> errors == Some(SubmitFailure(rejection.value, SaveFailed))
  {
    if tabung.None? {
      return None, None, false;
    }
    var newErrors, valid := ValidateForm(amount, bankBalance);
    errors := Some(newErrors);
    if !valid {
      return None, errors, false;
    }
    request := Some(TabungAmountRequest(tabung.value.id, ParseFloat(amount), TrimmedOrNone(reason)));
    if rejection.None? {
      closed := true;
    } else {
      errors := Some(SubmitFailure(rejection.value, SaveFailed));
      closed := false;
    }
  }

  // ---------------------------------------------------------------------
  // Figures (lines 77-79 and the preview)

  /** remaining (line 77): what is still missing to the target, never negative. */
  function Remaining(t: Tabung): (r: real)
    ensures r >= 0.0
    ensures r == 0.0 <==> t.savedAmount >= t.targetAmount
    ensures r > 0.0 ==> t.savedAmount + r == t.targetAmount
  {
    if t.targetAmount - t.savedAmount > 0.0 then t.targetAmount - t.savedAmount else 0.0
  }

  /** newTotal (line 78): the saved amount plus the entered one, an empty field counting as 0. */
  function NewTotal(t: Tabung, amount: Parsed<real>): (r: Option<real>)
    ensures r.None? <==> amount.NotANumber?
    ensures amount.Blank? ==> r == Some(t.savedAmount)
  {
    match ParseOrZeroText(amount)
    case None => None
    case Some(v) => Some(t.savedAmount + v)
  }

  /** willExceedTarget (line 79). */
  predicate WillExceedTarget(t: Tabung, amount: Parsed<real>)
  {
    Exceeds(NewTotal(t, amount), t.targetAmount)
  }

  /** The "Exceeding target" warning (line 126). */
  predicate ExceedWarningShown(t: Tabung, amount: Parsed<real>)
  {
    WillExceedTarget(t, amount) && !amount.Blank? && Exceeds(ParseFloat(amount), 0.0)
  }

  /**
   * The warning shows exactly for an amount larger than what remains to the
   * target: more than the target minus the saved amount, and positive.
   */
  lemma ExceedWarningSpec(t: Tabung, amount: Parsed<real>)
    ensures ExceedWarningShown(t, amount) <==> amount.Num? && amount.value > Remaining(t)
    ensures WillExceedTarget(t, amount) <==>
      (amount.Num? && amount.value > t.targetAmount - t.savedAmount)
      || (amount.Blank? && t.savedAmount > t.targetAmount)
  {
  }

  /** The previewed bank balance (line 149), shown under `PreviewShown` (line 139). */
  function PreviewBank(amount: Parsed<real>, bankBalance: real): (r: Option<real>)
    ensures r.Some? <==> amount.Num?
  {
    match ParseFloat(amount)
    case None => None
    case Some(v) => Some(bankBalance - v)
  }

  /**
   * For an amount the checks accept the preview moves money without creating
   * any: the bank never goes negative, and the new saved amount and the new
   * bank balance add up to what the tabung and the bank held before.
   */
  lemma PreviewConservesMoney(t: Tabung, amount: Parsed<real>, bankBalance: real)
    requires amount.Num? && 0.0 < amount.value <= bankBalance
    ensures PreviewShown(amount, map[])
    ensures PreviewBank(amount, bankBalance).value >= 0.0
    ensures NewTotal(t, amount).value + PreviewBank(amount, bankBalance).value == t.savedAmount + bankBalance
  {
  }
}
