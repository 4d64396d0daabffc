/**
 * src/features/creditCards/EditCreditCardModal.tsx: renaming a card, its
 * bank, and changing its credit limit, pre-filled from the card.
 */
module EditCreditCardModal {

  import opened Wrappers
  import opened Types
  import opened Text
  import opened FormInput
  import DateUtils

  /** The modal's fields as typed. */
  datatype CardForm = CardForm(name: string, bank: string, creditLimit: Parsed<real>)

  /** The `onSubmit` argument. */
  datatype CardUpdate = CardUpdate(name: string, bank: string, creditLimit: real)

  /** The guards of handleSubmit, in the order they run; the last prints the outstanding balance. */
  datatype CardError = NoName | NoBank | InvalidLimit | LimitBelowOutstanding(outstanding: real)

  /** The error text of each guard, the outstanding balance given in whole cents. */
  function ErrorMessage(e: CardError): string
  {
    match e
    case NoName => "Card name is required"
    case NoBank => "Bank name is required"
    case InvalidLimit => "Please enter a valid credit limit"
    case LimitBelowOutstanding(x) =>
      "Credit limit cannot be less than outstanding balance (" + DateUtils.FormatCurrency((x * 100.0 + 0.5).Floor) + ")"
  }

  /** The form the effect fills from the card (lines 32-39). */
  function FormOf(card: CreditCard): (form: CardForm)
    ensures form.name == card.name && form.bank == card.bank && form.creditLimit == Num(card.creditLimit)
  {
    CardForm(card.name, card.bank, Num(card.creditLimit))
  }

  /**
   * handleSubmit's checks and payload (lines 41-81). The limit is compared
   * with the outstanding balance only when there is a card.
   */
  function Submit(form: CardForm, card: Option<CreditCard>): Result<CardUpdate, CardError>
  {
    if Trim(form.name) == [] then Failure(NoName)
    else if Trim(form.bank) == [] then Failure(NoBank)
    else if NotAPositiveNumber(form.creditLimit) then Failure(InvalidLimit)
    else if card.Some? && form.creditLimit.value < card.value.outstandingBalance then
      Failure(LimitBelowOutstanding(card.value.outstandingBalance))
    else Success(CardUpdate(Trim(form.name), Trim(form.bank), form.creditLimit.value))
  }

  /**
   * An update is sent exactly when the name and the bank have a non-space
   * character and the limit is a positive number of at least the card's
   * outstanding balance (equal allowed); it carries the trimmed name and
   * bank and the number read.
   */
  lemma SubmitSpec(form: CardForm, card: Option<CreditCard>)
    ensures Submit(form, card).Success? <==>
      !IsBlank(form.name) && !IsBlank(form.bank)
      && form.creditLimit.Num? && form.creditLimit.value > 0.0
      && (card.None? || form.creditLimit.value >= card.value.outstandingBalance)
    ensures Submit(form, card).Success? ==>
      Submit(form, card).value == CardUpdate(Trim(form.name), Trim(form.bank), form.creditLimit.value)
      && Submit(form, card).value.name != [] && Submit(form, card).value.bank != []
    ensures Submit(form, card) == Failure(NoBank) ==> !IsBlank(form.name)
    ensures Submit(form, card).Failure? && Submit(form, card).error.LimitBelowOutstanding? ==>
      card.Some? && Submit(form, card).error.outstanding == card.value.outstandingBalance
  {
    TrimEmptyIffBlank(form.name);
    TrimEmptyIffBlank(form.bank);
  }

  /**
   * Saving the form as it opened sends the card's own name, bank and limit
   * back, when the name and bank are trimmed and not empty and the card is
   * within its limit.
   */
  lemma UntouchedFormRoundTrip(card: CreditCard)
    requires Trim(card.name) == card.name && card.name != []
    requires Trim(card.bank) == card.bank && card.bank != []
    requires 0.0 < card.creditLimit && card.outstandingBalance <= card.creditLimit
    ensures Submit(FormOf(card), Some(card)) == Success(CardUpdate(card.name, card.bank, card.creditLimit))
  {
  }
}
