/**
 * src/features/creditCards/UpdateStatementModal.tsx: entering a card's
 * monthly statement (balance, minimum payment and due date), pre-filled from
 * the card when it opens.
 */
module UpdateStatementModal {

  import opened Wrappers
  import opened Types
  import opened Text
  import opened FormInput

  /** The modal's fields as typed. */
  datatype StatementForm = StatementForm(statementBalance: Parsed<real>, minimumPayment: Parsed<real>, statementDueDate: string)

  /** The `onSubmit` argument. */
  datatype StatementUpdate = StatementUpdate(statementBalance: real, minimumPayment: real, statementDueDate: string)

  /** The guards of handleSubmit, in the order they run. */
  datatype StatementError = InvalidBalance | InvalidMinimum | NoDueDate | MinimumAboveBalance

  /** The error text of each guard. */
  function ErrorMessage(e: StatementError): string
  {
    match e
    case InvalidBalance => "Please enter a valid statement balance"
    case InvalidMinimum => "Please enter a valid minimum payment"
    case NoDueDate => "Please select a due date"
    case MinimumAboveBalance => "Minimum payment cannot exceed statement balance"
  }

  /**
   * The form the effect fills from the card (lines 32-40): both figures as
   * their own text (a 0 prints as "0", which is kept), and the due date or
   * empty text.
   */
  function FormOf(card: CreditCard): (form: StatementForm)
    ensures form.statementBalance == Num(card.statementBalance) && form.minimumPayment == Num(card.minimumPayment)
    ensures card.statementDueDate.None? ==> form.statementDueDate == []
    ensures card.statementDueDate.Some? ==> form.statementDueDate == card.statementDueDate.value
  {
    StatementForm(Num(card.statementBalance), Num(card.minimumPayment), OrDefault(card.statementDueDate, ""))
  }

  /** handleSubmit's checks and payload (lines 42-83): the first failed guard, or the update. */
  function Submit(form: StatementForm): Result<StatementUpdate, StatementError>
  {
    if NotANonNegativeNumber(form.statementBalance) then Failure(InvalidBalance)
    else if NotANonNegativeNumber(form.minimumPayment) then Failure(InvalidMinimum)
    else if form.statementDueDate == [] then Failure(NoDueDate)
    else if form.minimumPayment.value > form.statementBalance.value then Failure(MinimumAboveBalance)
    else Success(StatementUpdate(form.statementBalance.value, form.minimumPayment.value, form.statementDueDate))
  }

  /**
   * A statement is sent exactly when both figures are numbers of at least 0
   * (zero allowed), a due date is chosen, and the minimum is at most the
   * balance (equal allowed); it carries the two numbers and the date as they
   * are, and the error of a rejected form is the first check that fails.
   */
  lemma SubmitSpec(form: StatementForm)
    ensures Submit(form).Success? <==>
      form.statementBalance.Num? && form.statementBalance.value >= 0.0
      && form.minimumPayment.Num? && form.minimumPayment.value >= 0.0
      && form.statementDueDate != []
      && form.minimumPayment.value <= form.statementBalance.value
    ensures Submit(form).Success? ==>
      Num(Submit(form).value.statementBalance) == form.statementBalance
      && Num(Submit(form).value.minimumPayment) == form.minimumPayment
      && Submit(form).value.statementDueDate == form.statementDueDate
    ensures Submit(form) == Failure(InvalidMinimum) ==> !NotANonNegativeNumber(form.statementBalance)
    ensures Submit(form) == Failure(NoDueDate) ==>
      !NotANonNegativeNumber(form.statementBalance) && !NotANonNegativeNumber(form.minimumPayment)
    ensures Submit(form) == Failure(MinimumAboveBalance) <==>
      !NotANonNegativeNumber(form.statementBalance) && !NotANonNegativeNumber(form.minimumPayment)
      && form.statementDueDate != [] && form.minimumPayment.value > form.statementBalance.value
  {
  }

  /**
   * Saving the form as it opened sends the card's own statement back, for a
   * card with a due date, non-negative figures and a minimum no larger than
   * the balance; a card without a due date cannot be saved untouched.
   */
  lemma UntouchedFormRoundTrip(card: CreditCard)
    ensures card.statementDueDate.None? ==> Submit(FormOf(card)).Failure?
    ensures (card.statementDueDate.Some? && card.statementDueDate.value != []
             && 0.0 <= card.minimumPayment <= card.statementBalance) ==>
      Submit(FormOf(card)) ==
        Success(StatementUpdate(card.statementBalance, card.minimumPayment, card.statementDueDate.value))
  {
    var form := FormOf(card);
    if card.statementDueDate.Some? {
      assert form.statementDueDate == card.statementDueDate.value;
    } else {
      assert form.statementDueDate == [];
    }
  }
}
