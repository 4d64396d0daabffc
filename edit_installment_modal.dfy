/**
 * src/features/creditCards/EditInstallmentModal.tsx: the form that changes
 * an installment plan's name, description, monthly amount, number of
 * installments and interest rate, filled from the plan when it opens.
 */
module EditInstallmentModal {

  import opened Wrappers
  import opened Types
  import opened Text
  import opened FormInput
  import AddInstallmentModal

  /** The modal's fields as typed. */
  datatype EditInstallmentForm = EditInstallmentForm(
    itemName: string, description: string, monthlyInstallment: Parsed<real>,
    totalInstallments: Parsed<int>, interestRate: Parsed<real>)

  /** The `onSubmit` argument. */
  datatype InstallmentUpdate = InstallmentUpdate(
    itemName: string, description: Option<string>, monthlyInstallment: real,
    totalInstallments: int, interestRate: real)

  /** The guards of handleSubmit, in the order they run. */
  datatype EditInstallmentError =
    | NoItemName
    | InvalidMonthly
    | InvalidCount
    | BelowPaid(paidInstallments: int)

  /** The message of each guard; the last one also prints the number of paid installments. */
  function ErrorMessage(e: EditInstallmentError): string
  {
    match e
    case NoItemName => "Please enter an item name"
    case InvalidMonthly => "Please enter a valid monthly installment"
    case InvalidCount => "Please enter a valid number of installments"
    case BelowPaid(paid) => "Total installments cannot be less than paid installments (" + IntToString(paid) + ")"
  }

  /** The form as the effect fills it from the plan (lines 35-44). */
  function FormOf(i: Installment): (form: EditInstallmentForm)
    ensures form.itemName == i.itemName
    ensures form.monthlyInstallment == Num(i.monthlyInstallment) && form.totalInstallments == Num(i.totalInstallments)
    ensures form.interestRate == Num(i.interestRate)
    ensures i.description.Some? ==> form.description == i.description.value
  {
    EditInstallmentForm(i.itemName, OrDefault(i.description, ""), Num(i.monthlyInstallment),
                        Num(i.totalInstallments), Num(i.interestRate))
  }

  /**
   * handleSubmit's checks and payload (lines 46-83). The count is checked
   * against the paid installments only when there is a plan.
   */
  function Submit(form: EditInstallmentForm, installment: Option<Installment>): Result<InstallmentUpdate, EditInstallmentError>
  {
    if Trim(form.itemName) == [] then Failure(NoItemName)
    else if NotAPositiveNumber(form.monthlyInstallment) then Failure(InvalidMonthly)
    else if AddInstallmentModal.NotACount(form.totalInstallments) then Failure(InvalidCount)
    else if installment.Some? && form.totalInstallments.value < installment.value.paidInstallments then
      Failure(BelowPaid(installment.value.paidInstallments))
    else
      Success(InstallmentUpdate(Trim(form.itemName), TrimmedOrNone(form.description),
                                form.monthlyInstallment.value, form.totalInstallments.value,
                                OrZero(form.interestRate)))
  }

  /**
   * An update is sent exactly when the name is not blank, the monthly amount
   * is a positive number and the count a whole number of at least 1 and of
   * at least the installments already paid (equal is allowed); it carries
   * the trimmed name and the numbers read, an unreadable rate becoming 0.
   */
  lemma SubmitSpec(form: EditInstallmentForm, installment: Option<Installment>)
    ensures Submit(form, installment).Success? <==>
      !IsBlank(form.itemName)
      && form.monthlyInstallment.Num? && form.monthlyInstallment.value > 0.0
      && form.totalInstallments.Num? && form.totalInstallments.value >= 1
      && (installment.None? || form.totalInstallments.value >= installment.value.paidInstallments)
    ensures Submit(form, installment).Success? ==>
      var r := Submit(form, installment).value;
      r.itemName == Trim(form.itemName) && r.itemName != []
      && r.description == TrimmedOrNone(form.description)
      && Num(r.monthlyInstallment) == form.monthlyInstallment && Num(r.totalInstallments) == form.totalInstallments
      && r.interestRate == (if form.interestRate.Num? then form.interestRate.value else 0.0)
    ensures Submit(form, installment).Failure? && installment.Some? && Submit(form, installment).error.BelowPaid? ==>
      Submit(form, installment).error.paidInstallments == installment.value.paidInstallments
  {
    TrimEmptyIffBlank(form.itemName);
  }

  /**
   * There is no check that the new monthly amount and count still make up
   * the plan's total: the outcome is the same whatever total the plan has.
   */
  lemma NoTotalCheck(form: EditInstallmentForm, i: Installment, total: real)
    ensures Submit(form, Some(i)) == Submit(form, Some(i.(totalAmount := total)))
  {
  }

  /**
   * Saving the form as it opened sends the plan's own values back, for a
   * plan whose name is trimmed and not blank, whose description is absent
   * or trimmed and not empty, whose monthly amount is positive and whose
   * count is at least 1 and at least the paid count.
   */
  lemma UntouchedFormRoundTrip(i: Installment)
    requires Trim(i.itemName) == i.itemName && i.itemName != []
    requires i.description.None? || (i.description.value != [] && Trim(i.description.value) == i.description.value)
    requires i.monthlyInstallment > 0.0 && i.totalInstallments >= 1 && i.totalInstallments >= i.paidInstallments
    ensures Submit(FormOf(i), Some(i)) ==
      Success(InstallmentUpdate(i.itemName, i.description, i.monthlyInstallment, i.totalInstallments, i.interestRate))
  {
    var form := FormOf(i);
    TrimEmptyIffBlank(i.itemName);
    SubmitAccepts(form, Some(i));
    TrimmedOrNoneOfShown(i.description);
    assert form.description == OrDefault(i.description, "");
  }

  /** The payload of a form that passes every guard. */
  lemma SubmitAccepts(form: EditInstallmentForm, installment: Option<Installment>)
    requires !IsBlank(form.itemName)
    requires form.monthlyInstallment.Num? && form.monthlyInstallment.value > 0.0
    requires form.totalInstallments.Num? && form.totalInstallments.value >= 1
    requires installment.None? || form.totalInstallments.value >= installment.value.paidInstallments
    ensures Submit(form, installment) ==
      Success(InstallmentUpdate(Trim(form.itemName), TrimmedOrNone(form.description), form.monthlyInstallment.value,
                                form.totalInstallments.value, OrZero(form.interestRate)))
  {
    TrimEmptyIffBlank(form.itemName);
  }
}
