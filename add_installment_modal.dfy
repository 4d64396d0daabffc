/**
 * src/features/creditCards/AddInstallmentModal.tsx: the form that puts an
 * installment plan on a credit card. Its checks run in a fixed order and the
 * first one that fails is the error shown; two field handlers fill in the
 * total from the monthly amount and the number of installments.
 */
module AddInstallmentModal {

  import opened Wrappers
  import opened Types
  import opened Text
  import opened Lists
  import opened FormInput

  /** The modal's fields as typed; the installment count is read by `parseInt`. */
  datatype InstallmentForm = InstallmentForm(
    creditCardId: string, itemName: string, description: string,
    totalAmount: Parsed<real>, monthlyInstallment: Parsed<real>, totalInstallments: Parsed<int>,
    interestRate: Parsed<real>, startDate: string)

  /** The `onSubmit` argument. */
  datatype InstallmentRequest = InstallmentRequest(
    creditCardId: string, cardType: CreditCardType, user: UserRole, itemName: string,
    description: Option<string>, totalAmount: real, monthlyInstallment: real, totalInstallments: int,
    interestRate: real, startDate: string)

  /** The guards of handleSubmit, in the order they run. */
  datatype InstallmentError =
    | NoCardSelected
    | NoItemName
    | InvalidTotal
    | InvalidMonthly
    | InvalidCount
    | TotalMismatch(total: real, calculated: real)
    | CardNotFound
    | CardUserMissing

  /**
   * The message of each guard. The mismatch message also prints the entered total and
   * the computed product; `show` is JavaScript's conversion of a number to text.
   */
  function ErrorMessage(e: InstallmentError, show: real -> string): string
  {
    match e
    case NoCardSelected => "Please select a credit card"
    case NoItemName => "Please enter an item name"
    case InvalidTotal => "Please enter a valid total amount"
    case InvalidMonthly => "Please enter a valid monthly installment"
    case InvalidCount => "Please enter a valid number of installments"
    case TotalMismatch(total, calculated) =>
      "Total amount (" + show(total) + ") doesn't match monthly installment × total installments ("
      + show(calculated) + ")"
    case CardNotFound => "Selected credit card not found"
    case CardUserMissing => "Credit card user information is missing. Please contact support."
  }

  /** The tolerance of the total check. */
  const Tolerance: real := 0.01

  function CardId(c: CreditCard): string { c.id }

  /** `selectedCard.user || selectedCard.owner`. */
  function CardHolder(c: CreditCard): (r: Option<UserRole>)
    ensures r.None? <==> c.user.None? && c.owner.None?
    ensures c.user.Some? ==> r == c.user
  {
    if c.user.Some? then c.user else c.owner
  }

  /** `!s || isNaN(n) || n < 1` on the installment count. */
  predicate NotACount(x: Parsed<int>)
  {
    !(x.Num? && x.value >= 1)
  }

  /** `Math.abs(monthly * count - total) > 0.01`. */
  predicate Mismatch(total: real, monthly: real, count: int)
  {
    var d := monthly * count as real - total;
    (if d < 0.0 then -d else d) > Tolerance
  }

  /** handleSubmit's checks and payload (lines 57-127): the first failed guard, or the request. */
  function Submit(form: InstallmentForm, cards: seq<CreditCard>): Result<InstallmentRequest, InstallmentError>
  {
    if form.creditCardId == [] then Failure(NoCardSelected)
    else if Trim(form.itemName) == [] then Failure(NoItemName)
    else if NotAPositiveNumber(form.totalAmount) then Failure(InvalidTotal)
    else if NotAPositiveNumber(form.monthlyInstallment) then Failure(InvalidMonthly)
    else if NotACount(form.totalInstallments) then Failure(InvalidCount)
    else
      var total, monthly, count := form.totalAmount.value, form.monthlyInstallment.value, form.totalInstallments.value;
      if Mismatch(total, monthly, count) then Failure(TotalMismatch(total, monthly * count as real))
      else match Find(cards, CardId, form.creditCardId)
        case None => Failure(CardNotFound)
        case Some(card) =>
          match CardHolder(card)
          case None => Failure(CardUserMissing)
          case Some(user) =>
            Success(InstallmentRequest(
              form.creditCardId, card.cardType, user, Trim(form.itemName), TrimmedOrNone(form.description),
              total, monthly, count, OrZero(form.interestRate), form.startDate))
  }

  /**
   * A plan is sent exactly when a card is chosen that is in the list and has
   * a holder, the item has a name, the three numbers are present, positive
   * and consistent to within a cent; the request then carries the card's
   * type and holder, the trimmed name and the parsed numbers, an empty
   * description being left out and an unreadable rate read as 0.
   */
  lemma SubmitSpec(form: InstallmentForm, cards: seq<CreditCard>)
    ensures Submit(form, cards).Success? <==>
      form.creditCardId != [] && !IsBlank(form.itemName)
      && form.totalAmount.Num? && form.totalAmount.value > 0.0
      && form.monthlyInstallment.Num? && form.monthlyInstallment.value > 0.0
      && form.totalInstallments.Num? && form.totalInstallments.value >= 1
      && !Mismatch(form.totalAmount.value, form.monthlyInstallment.value, form.totalInstallments.value)
      && (exists j | 0 <= j < |cards| :: cards[j].id == form.creditCardId)
      && CardHolder(Find(cards, CardId, form.creditCardId).value).Some?
    ensures Submit(form, cards).Success? ==>
      var r := Submit(form, cards).value;
      var card := Find(cards, CardId, form.creditCardId).value;
      r.creditCardId == card.id && r.cardType == card.cardType && Some(r.user) == CardHolder(card)
      && r.itemName == Trim(form.itemName) && r.itemName != []
      && r.description == TrimmedOrNone(form.description)
      && r.totalAmount > 0.0 && r.monthlyInstallment > 0.0 && r.totalInstallments >= 1
      && r.interestRate == (if form.interestRate.Num? then form.interestRate.value else 0.0)
      && r.startDate == form.startDate
  {
    TrimEmptyIffBlank(form.itemName);
    var found := Find(cards, CardId, form.creditCardId);
    if found.None? {
      assert forall j | 0 <= j < |cards| :: cards[j].id != form.creditCardId;
    }
  }

  /** The rank of each guard in the chain. */
  function Rank(e: InstallmentError): nat
  {
    match e
    case NoCardSelected => 0
    case NoItemName => 1
    case InvalidTotal => 2
    case InvalidMonthly => 3
    case InvalidCount => 4
    case TotalMismatch(_, _) => 5
    case CardNotFound => 6
    case CardUserMissing => 7
  }

  /** Whether guard `k` fails on the form, read on its own. */
  predicate GuardFails(form: InstallmentForm, cards: seq<CreditCard>, k: nat)
  {
    if k == 0 then form.creditCardId == []
    else if k == 1 then IsBlank(form.itemName)
    else if k == 2 then NotAPositiveNumber(form.totalAmount)
    else if k == 3 then NotAPositiveNumber(form.monthlyInstallment)
    else if k == 4 then NotACount(form.totalInstallments)
    else if k == 5 then
      form.totalAmount.Num? && form.monthlyInstallment.Num? && form.totalInstallments.Num?
      && Mismatch(form.totalAmount.value, form.monthlyInstallment.value, form.totalInstallments.value)
    else if k == 6 then forall j | 0 <= j < |cards| :: cards[j].id != form.creditCardId
    else if k == 7 then
      Find(cards, CardId, form.creditCardId).Some? && CardHolder(Find(cards, CardId, form.creditCardId).value).None?
    else false
  }

  /** The error shown is the first guard that fails: it fails, and every earlier one passes. */
  lemma FirstFailureWins(form: InstallmentForm, cards: seq<CreditCard>)
    requires Submit(form, cards).Failure?
    ensures GuardFails(form, cards, Rank(Submit(form, cards).error))
    ensures forall k: nat | k < Rank(Submit(form, cards).error) :: !GuardFails(form, cards, k)
  {
    TrimEmptyIffBlank(form.itemName);
  }

  // ---------------------------------------------------------------------
  // Auto-total (lines 137-153)

  /** The total the handlers write: `(monthly * count).toFixed(2)` when both read and the count is positive. */
  function AutoTotal(monthly: Parsed<real>, count: Parsed<int>, current: Parsed<real>): (r: Parsed<real>)
    ensures !(monthly.Num? && count.Num? && count.value > 0) ==> r == current
  {
    if monthly.Num? && count.Num? && count.value > 0 then Num(Round2(monthly.value * count.value as real)) else current
  }

  /** handleMonthlyChange (lines 137-144). */
  function MonthlyChanged(form: InstallmentForm, value: Parsed<real>): (r: InstallmentForm)
    ensures r.monthlyInstallment == value && r.totalInstallments == form.totalInstallments
    ensures r == form.(monthlyInstallment := value, totalAmount := r.totalAmount)
  {
    form.(monthlyInstallment := value, totalAmount := AutoTotal(value, form.totalInstallments, form.totalAmount))
  }

  /** handleTotalInstallmentsChange (lines 146-153). */
  function CountChanged(form: InstallmentForm, value: Parsed<int>): (r: InstallmentForm)
    ensures r.totalInstallments == value && r.monthlyInstallment == form.monthlyInstallment
    ensures r == form.(totalInstallments := value, totalAmount := r.totalAmount)
  {
    form.(totalInstallments := value, totalAmount := AutoTotal(form.monthlyInstallment, value, form.totalAmount))
  }

  /** A whole-cent amount times a whole number is still whole cents, so rounding it to the cent changes nothing. */
  lemma Round2OfProduct(m: real, n: int, p: real)
    requires WholeCents(m) && p == m * n as real
    ensures WholeCents(p)
    ensures Round2(p) == p
  {
    var k := (m * 100.0).Floor;
    assert p * 100.0 == (k * n) as real;
    Round2Bounds(p, p);
  }

  /**
   * When the handlers write a total, for a whole-cent monthly amount and a
   * positive count, it is exactly their product: the rounding to two decimals
   * loses nothing.
   */
  lemma AutoTotalConsistent(monthly: Parsed<real>, count: Parsed<int>, current: Parsed<real>)
    requires monthly.Num? && WholeCents(monthly.value)
    requires count.Num? && count.value > 0
    ensures AutoTotal(monthly, count, current) == Num(monthly.value * count.value as real)
  {
    AutoTotalWritten(monthly, count, current);
    Round2OfProduct(monthly.value, count.value, monthly.value * count.value as real);
  }

  /**
   * Whatever the monthly amount, the total filled in from it passes the check of
   * lines 92-98: rounding to the cent moves the product by at most half a cent.
   */
  lemma AutoTotalNeverMismatched(monthly: Parsed<real>, count: Parsed<int>, current: Parsed<real>)
    requires monthly.Num? && count.Num? && count.value > 0
    ensures !Mismatch(AutoTotal(monthly, count, current).value, monthly.value, count.value)
  {
    AutoTotalWritten(monthly, count, current);
  }

  /** The handlers' write, taken on its own so that the arithmetic above stays out of its way. */
  lemma AutoTotalWritten(monthly: Parsed<real>, count: Parsed<int>, current: Parsed<real>)
    requires monthly.Num? && count.Num? && count.value > 0
    ensures AutoTotal(monthly, count, current) == Num(Round2(monthly.value * count.value as real))
  {
  }
}
