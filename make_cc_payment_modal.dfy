/**
 * src/features/creditCards/MakeCCPaymentModal.tsx: paying a credit card from
 * a user's bank balance. The payer defaults to the card's user, the checks
 * run in a fixed order, and the form previews the balances after paying.
 */
module MakeCCPaymentModal {

  import opened Wrappers
  import opened Types
  import opened Text
  import opened Lists
  import opened FormInput
  import opened BalanceSlice
  import DateUtils

  /** The modal's fields as typed. */
  datatype PaymentForm = PaymentForm(amount: Parsed<real>, paidBy: UserRole, paymentDate: string, notes: string)

  /** The `onSubmit` argument. */
  datatype PaymentRequest = PaymentRequest(amount: real, paidBy: UserRole, paymentDate: string, notes: Option<string>)

  /** The guards of handleSubmit, in the order they run; the last two print the figure they compare with. */
  datatype PaymentError =
    | InvalidAmount
    | CardMissing
    | ExceedsOutstanding(outstanding: real)
    | InsufficientBank(bank: real)

  /** The amount as `formatCurrency` receives it, in whole cents. */
  function Cents(x: real): int
  {
    (x * 100.0 + 0.5).Floor
  }

  /** The error text of each guard. */
  function ErrorMessage(e: PaymentError): string
  {
    match e
    case InvalidAmount => "Please enter a valid amount"
    case CardMissing => "Credit card not found"
    case ExceedsOutstanding(x) =>
      "Payment amount cannot exceed outstanding balance (" + DateUtils.FormatCurrency(Cents(x)) + ")"
    case InsufficientBank(x) => "Insufficient bank balance (" + DateUtils.FormatCurrency(Cents(x)) + ")"
  }

  /** The payer the form starts with (lines 38-47): the card's user, else the husband; the owner is not consulted. */
  function DefaultPaidBy(card: CreditCard): (r: UserRole)
    ensures card.user.Some? ==> r == card.user.value
    ensures card.user.None? ==> r == Husband
  {
    if card.user.Some? then card.user.value else Husband
  }

  /** The form as the effect resets it when the modal opens on a card, `today` being the ISO date of now. */
  function OpenedForm(card: CreditCard, today: string): (form: PaymentForm)
    ensures form.amount.Blank? && form.notes == [] && form.paymentDate == today
    ensures form.paidBy == DefaultPaidBy(card)
  {
    PaymentForm(Blank, DefaultPaidBy(card), today, "")
  }

  /** bankBalance (lines 49-50): the payer's first balance record's bank figure, or 0. */
  function BankBalance(balances: seq<Balance>, paidBy: UserRole): (r: real)
    ensures (forall j | 0 <= j < |balances| :: balances[j].user != paidBy) ==> r == 0.0
  {
    var found := Find(balances, BalanceUser, paidBy);
    if found.Some? then found.value.bank else 0.0
  }

  /** With one record per user, the bank balance is the payer's own record's bank figure. */
  lemma BankBalanceOfRecord(balances: seq<Balance>, paidBy: UserRole, j: int)
    requires UniqueKeys(balances, BalanceUser)
    requires 0 <= j < |balances| && balances[j].user == paidBy
    ensures BankBalance(balances, paidBy) == balances[j].bank
  {
    FindIndexChar(balances, BalanceUser, paidBy, j);
  }

  /** handleSubmit's checks and payload (lines 56-97): the first failed guard, or the payment. */
  function Submit(form: PaymentForm, card: Option<CreditCard>, balances: seq<Balance>): Result<PaymentRequest, PaymentError>
  {
    if NotAPositiveNumber(form.amount) then Failure(InvalidAmount)
    else if card.None? then Failure(CardMissing)
    else if form.amount.value > card.value.outstandingBalance then Failure(ExceedsOutstanding(card.value.outstandingBalance))
    else
      var bank := BankBalance(balances, form.paidBy);
      if form.amount.value > bank then Failure(InsufficientBank(bank))
      else Success(PaymentRequest(form.amount.value, form.paidBy, form.paymentDate, TrimmedOrNone(form.notes)))
  }

  /**
   * A payment is sent exactly when there is a card and the amount is a
   * positive number no larger than the outstanding balance and than the
   * payer's bank balance (either may be paid in full); it carries the amount,
   * the payer and the date as given, and the trimmed notes or none.
   */
  lemma SubmitSpec(form: PaymentForm, card: Option<CreditCard>, balances: seq<Balance>)
    ensures Submit(form, card, balances).Success? <==>
      card.Some? && form.amount.Num? && 0.0 < form.amount.value
      && form.amount.value <= card.value.outstandingBalance
      && form.amount.value <= BankBalance(balances, form.paidBy)
    ensures Submit(form, card, balances).Success? ==>
      Submit(form, card, balances).value ==
        PaymentRequest(form.amount.value, form.paidBy, form.paymentDate, TrimmedOrNone(form.notes))
  {
  }

  /**
   * The error shown is the first check that fails: a missing card is
   * reported only for a valid amount, the outstanding balance only with a
   * card, and the bank balance only for an amount within the outstanding one.
   */
  lemma SubmitErrors(form: PaymentForm, card: Option<CreditCard>, balances: seq<Balance>)
    ensures Submit(form, card, balances) == Failure(InvalidAmount) <==> NotAPositiveNumber(form.amount)
    ensures Submit(form, card, balances) == Failure(CardMissing) <==> !NotAPositiveNumber(form.amount) && card.None?
    ensures Submit(form, card, balances).Failure? && Submit(form, card, balances).error.ExceedsOutstanding? <==>
      form.amount.Num? && form.amount.value > 0.0 && card.Some? && form.amount.value > card.value.outstandingBalance
    ensures Submit(form, card, balances).Failure? && Submit(form, card, balances).error.InsufficientBank? <==>
      form.amount.Num? && form.amount.value > 0.0 && card.Some? && form.amount.value <= card.value.outstandingBalance
      && form.amount.value > BankBalance(balances, form.paidBy)
  {
  }

  // ---------------------------------------------------------------------
  // Previews and the submit button (lines 101-103, 266)

  /** newOutstanding (line 102), with `parseFloat(amount) || 0`. */
  function NewOutstanding(card: CreditCard, amount: Parsed<real>): real
  {
    card.outstandingBalance - OrZero(amount)
  }

  /** newBankBalance (line 103). */
  function NewBankBalance(bank: real, amount: Parsed<real>): real
  {
    bank - OrZero(amount)
  }

  /** The submit button's `disabled` (line 266). */
  predicate SubmitDisabled(loading: bool, amount: Parsed<real>, bank: real)
  {
    loading || OrZero(amount) > bank
  }

  /**
   * The previews of an accepted payment: neither balance goes below zero,
   * each drops by exactly the amount, and the button is enabled when no
   * request is running.
   */
  lemma AcceptedPreview(form: PaymentForm, card: CreditCard, balances: seq<Balance>)
    requires Submit(form, Some(card), balances).Success?
    ensures var bank := BankBalance(balances, form.paidBy);
      NewOutstanding(card, form.amount) >= 0.0 && NewBankBalance(bank, form.amount) >= 0.0
      && card.outstandingBalance - NewOutstanding(card, form.amount) == form.amount.value
      && bank - NewBankBalance(bank, form.amount) == form.amount.value
      && !SubmitDisabled(false, form.amount, bank)
  {
    SubmitSpec(form, Some(card), balances);
  }

  /**
   * The disabled button never holds back a payment the checks would accept:
   * whenever it is disabled for the amount, submitting would fail anyway.
   */
  lemma DisabledOnlyWhenRejected(form: PaymentForm, card: Option<CreditCard>, balances: seq<Balance>)
    requires SubmitDisabled(false, form.amount, BankBalance(balances, form.paidBy))
    ensures Submit(form, card, balances).Failure?
  {
  }

  /** The converse fails: an amount over the outstanding balance leaves the button enabled and is rejected only on submit. */
  lemma EnabledButRejected(card: CreditCard, balances: seq<Balance>, form: PaymentForm)
    requires form.amount == Num(2.0) && card.outstandingBalance == 1.0
    requires BankBalance(balances, form.paidBy) == 5.0
    ensures !SubmitDisabled(false, form.amount, BankBalance(balances, form.paidBy))
    ensures Submit(form, Some(card), balances) == Failure(ExceedsOutstanding(1.0))
  {
  }
}
