/**
 * src/features/reserved/DepositModal.tsx: returning reserved money to the
 * bank, all of it or a part. The amount starts at the whole reserved amount;
 * the preview shows what stays reserved.
 */
module DepositModal {

  import opened Wrappers
  import opened Types
  import opened FormInput

  /** The `depositBack` argument; a NaN amount is `None`. */
  datatype DepositRequest = DepositRequest(id: string, amount: Option<real>)

  const DepositFailed := "Failed to deposit back"

  /** The amount the field is set to when the modal opens on an item, and by "Use full amount" (lines 29-35, 76-80). */
  function FullAmount(item: Reserved): Parsed<real>
  {
    Num(item.amount)
  }

  /** The amounts validateForm accepts: positive (or NaN), and with an item no more than its amount. */
  predicate AmountAccepted(amount: Parsed<real>, item: Option<Reserved>)
  {
    !MissingOrNonPositive(amount) && !(item.Some? && Exceeds(ParseFloat(amount), item.value.amount))
  }

  /**
   * validateForm (lines 37-48): a missing or non-positive amount, or else one
   * above the reserved amount, is the single `amount` error; NaN passes both.
   */
  method ValidateForm(amount: Parsed<real>, item: Option<Reserved>) returns (newErrors: map<string, string>, valid: bool)
    ensures newErrors.Keys <= {"amount"}
    ensures valid <==> newErrors == map[]
    ensures valid <==> AmountAccepted(amount, item)
    ensures MissingOrNonPositive(amount) ==> newErrors == map["amount" := "Amount must be greater than 0"]
    ensures item.Some? && amount.Num? && amount.value > 0.0 && amount.value > item.value.amount ==>
      newErrors == map["amount" := "Amount cannot exceed reserved amount"]
  {
    newErrors := map[];
    if MissingOrNonPositive(amount) {
      newErrors := newErrors["amount" := "Amount must be greater than 0"];
    } else if item.Some? && Exceeds(ParseFloat(amount), item.value.amount) {
      newErrors := newErrors["amount" := "Amount cannot exceed reserved amount"];
    }
    valid := |newErrors| == 0;
  }

  /**
   * handleSubmit (lines 50-68). The form is validated even without an item,
   * but only with one is the deposit sent: its id and the parsed amount. A
   * request that succeeds (`rejection` is `None`) closes the modal; a failed
   * one shows its message.
   */
  method HandleSubmit(item: Option<Reserved>, amount: Parsed<real>, rejection: Option<Option<string>>)
    returns (request: Option<DepositRequest>, errors: map<string, string>, closed: bool)
    ensures request.Some? <==> item.Some? && AmountAccepted(amount, item)
    ensures request.None? ==> !closed && (errors == map[] <==> AmountAccepted(amount, item))
    ensures request.Some? ==> request.value == DepositRequest(item.value.id, ParseFloat(amount))
    ensures request.Some? ==> (closed <==> rejection.None?)
    ensures request.Some? && rejection.None? ==> errors == map[]
    ensures request.Some? && rejection.Some? ==> errors == SubmitFailure(rejection.value, DepositFailed)
  {
    var valid;
    errors, valid := ValidateForm(amount, item);
    if !valid || item.None? {
      return None, errors, false;
    }
    request := Some(DepositRequest(item.value.id, ParseFloat(amount)));
    if rejection.None? {
      closed := true;
    } else {
      errors := SubmitFailure(rejection.value, DepositFailed);
      closed := false;
    }
  }

  // ---------------------------------------------------------------------
  // The preview (lines 84-86, 136-156)

  /** depositAmount (line 84): `parseFloat(amount) || 0`. */
  function DepositAmount(amount: Parsed<real>): real
  {
    OrZero(amount)
  }

  /** remainingAmount (line 85). */
  function RemainingAmount(item: Reserved, amount: Parsed<real>): real
  {
    item.amount - DepositAmount(amount)
  }

  /** isFullDeposit (line 86). */
  predicate IsFullDeposit(item: Reserved, amount: Parsed<real>)
  {
    DepositAmount(amount) == item.amount
  }

  /** Whether the preview box shows (line 136). */
  predicate PreviewShown(amount: Parsed<real>)
  {
    DepositAmount(amount) > 0.0
  }

  /**
   * For a numeric amount the checks accept, the preview splits the reserved
   * money: the deposit and what remains add up to the reserved amount, the
   * remainder is never negative, and the deposit is full exactly when
   * nothing remains.
   */
  lemma AcceptedPreview(item: Reserved, amount: Parsed<real>)
    requires amount.Num? && AmountAccepted(amount, Some(item))
    ensures PreviewShown(amount)
    ensures DepositAmount(amount) + RemainingAmount(item, amount) == item.amount
    ensures 0.0 <= RemainingAmount(item, amount) < item.amount
    ensures IsFullDeposit(item, amount) <==> RemainingAmount(item, amount) == 0.0
  {
  }

  /**
   * The amount the modal opens with is accepted for any item holding
   * money, and deposits everything: the request carries the whole amount.
   */
  lemma FullAmountDeposits(item: Reserved)
    requires item.amount > 0.0
    ensures AmountAccepted(FullAmount(item), Some(item))
    ensures IsFullDeposit(item, FullAmount(item)) && RemainingAmount(item, FullAmount(item)) == 0.0
    ensures ParseFloat(FullAmount(item)) == Some(item.amount)
  {
  }

  /** Text that is not a number gets through the checks, shows no preview (it counts as 0) and is sent as NaN. */
  lemma NotANumberSent(item: Reserved)
    ensures AmountAccepted(NotANumber, Some(item))
    ensures !PreviewShown(NotANumber) && RemainingAmount(item, NotANumber) == item.amount
    ensures ParseFloat(NotANumber).None?
  {
  }
}
