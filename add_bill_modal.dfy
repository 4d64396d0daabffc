/**
 * src/features/bills/AddBillModal.tsx: the form that adds a bill or edits
 * one. `today` is the date of now in UTC, the default due date.
 */
module AddBillModal {

  import opened Wrappers
  import opened Types
  import opened Text
  import opened FormInput
  import opened Calendar

  /** The modal's fields as typed. */
  datatype BillForm = BillForm(name: string, amount: Parsed<real>, dueDate: string, recurring: bool, frequency: BillFrequency)

  /** `billData`: the fields sent, a NaN amount being `None`. */
  datatype BillData = BillData(
    name: string, amount: Option<real>, dueDate: string, recurring: bool,
    frequency: Option<BillFrequency>, isPaid: bool)

  /** The action dispatched: an update of the edited bill, or a new one. */
  datatype BillAction = CreateBill(data: BillData) | UpdateBill(id: string, data: BillData)

  const SaveFailed := "Failed to save bill"

  /** The form of a new bill (lines 49-56): no name or amount, due today, not recurring, monthly. */
  function NewForm(today: Date): (form: BillForm)
    requires ValidDate(today)
    ensures form.name == [] && form.amount.Blank? && form.dueDate == IsoDate(today)
    ensures !form.recurring && form.frequency == Monthly
  {
    BillForm("", Blank, IsoDate(today), false, Monthly)
  }

  /** The form of an edited bill (lines 40-47): a missing frequency shows as monthly. */
  function FormOf(b: Bill): (form: BillForm)
    ensures form.name == b.name && form.amount == Num(b.amount) && form.dueDate == b.dueDate
    ensures form.recurring == b.recurring
    ensures b.frequency.None? ==> form.frequency == Monthly
    ensures b.frequency.Some? ==> form.frequency == b.frequency.value
  {
    BillForm(b.name, Num(b.amount), b.dueDate, b.recurring, b.frequency.GetOr(Monthly))
  }

  /** The forms validateForm accepts; the due date may be in the past. */
  predicate FormAccepted(form: BillForm)
  {
    !IsBlank(form.name) && !MissingOrNonPositive(form.amount) && form.dueDate != []
  }

  /**
   * validateForm (lines 61-78): a blank name, a missing or non-positive
   * amount (NaN passes) and a missing due date each give their field's
   * message; there is no check on how early the date is.
   */
  method ValidateForm(form: BillForm) returns (newErrors: map<string, string>, valid: bool)
    ensures newErrors.Keys <= {"name", "amount", "dueDate"}
    ensures "name" in newErrors <==> IsBlank(form.name)
    ensures "name" in newErrors ==> newErrors["name"] == "Bill name is required"
    ensures "amount" in newErrors <==> MissingOrNonPositive(form.amount)
    ensures "amount" in newErrors ==> newErrors["amount"] == "Amount must be greater than 0"
    ensures "dueDate" in newErrors <==> form.dueDate == []
    ensures "dueDate" in newErrors ==> newErrors["dueDate"] == "Due date is required"
    ensures valid <==> newErrors == map[]
    ensures valid <==> FormAccepted(form)
  {
    TrimEmptyIffBlank(form.name);
    var blank := Trim(form.name) == [];
    var noAmount := MissingOrNonPositive(form.amount);
    var noDate := form.dueDate == [];
    newErrors := map[];
    if blank {
      newErrors := newErrors["name" := "Bill name is required"];
    }
    if noAmount {
      newErrors := newErrors["amount" := "Amount must be greater than 0"];
    }
    if noDate {
      newErrors := newErrors["dueDate" := "Due date is required"];
    }
    valid := |newErrors| == 0;
  }

  /**
   * billData (lines 85-92): the trimmed name, a frequency only for a
   * recurring bill, and the edited bill's paid flag (false for a new one).
   */
  function Data(form: BillForm, editing: Option<Bill>): (r: BillData)
    ensures r.name == Trim(form.name) && r.amount == ParseFloat(form.amount) && r.dueDate == form.dueDate
    ensures r.recurring == form.recurring
    ensures r.frequency.Some? <==> form.recurring
    ensures r.frequency.Some? ==> r.frequency.value == form.frequency
    ensures r.isPaid <==> editing.Some? && editing.value.isPaid
  {
    BillData(Trim(form.name), ParseFloat(form.amount), form.dueDate, form.recurring,
             if form.recurring then Some(form.frequency) else None,
             editing.Some? && editing.value.isPaid)
  }

  /** The action of a submit (lines 94-101): update when a bill is being edited, else create. */
  function Action(editing: Option<Bill>, data: BillData): (r: BillAction)
    ensures r.data == data
    ensures r.UpdateBill? <==> editing.Some?
    ensures r.UpdateBill? ==> r.id == editing.value.id
  {
    if editing.Some? then UpdateBill(editing.value.id, data) else CreateBill(data)
  }

  /** A past due date is accepted like any other: only a missing one is refused. */
  lemma PastDueDateAccepted(form: BillForm, d: Date, today: Date)
    requires ValidDate(d) && ValidDate(today) && DateLt(d, today)
    requires !IsBlank(form.name) && form.amount.Num? && form.amount.value > 0.0 && form.dueDate == IsoDate(d)
    ensures FormAccepted(form)
  {
  }

  /**
   * Saving an edited bill untouched sends its own fields back, for a bill
   * whose name is trimmed and not blank, whose amount is positive and which
   * has a frequency exactly when it recurs.
   */
  lemma UntouchedEditRoundTrip(b: Bill)
    requires Trim(b.name) == b.name && b.name != [] && b.amount > 0.0 && b.dueDate != []
    requires b.frequency.Some? <==> b.recurring
    ensures FormAccepted(FormOf(b))
    ensures Data(FormOf(b), Some(b)) == BillData(b.name, Some(b.amount), b.dueDate, b.recurring, b.frequency, b.isPaid)
  {
    TrimEmptyIffBlank(b.name);
  }

  /** Saving a bill that does not recur clears any frequency it had stored. */
  lemma NonRecurringDropsFrequency(b: Bill)
    requires !b.recurring && b.frequency.Some?
    ensures Data(FormOf(b), Some(b)).frequency.None?
  {
  }

  /**
   * handleSubmit (lines 80-108). An invalid form dispatches nothing and shows
   * its errors; a valid one dispatches the update or the create, then closes
   * when it succeeds (`rejection` is `None`) or shows the failure's message.
   */
  method HandleSubmit(editing: Option<Bill>, form: BillForm, rejection: Option<Option<string>>)
    returns (action: Option<BillAction>, errors: map<string, string>, closed: bool)
    ensures action.Some? <==> FormAccepted(form)
    ensures action.None? ==> errors != map[] && !closed
    ensures action.Some? ==> action.value == Action(editing, Data(form, editing))
    ensures action.Some? ==> (closed <==> rejection.None?)
    ensures action.Some? && rejection.None? ==> errors == map[]
    ensures action.Some? && rejection.Some? ==> errors == SubmitFailure(rejection.value, SaveFailed)
  {
    var valid;
    errors, valid := ValidateForm(form);
    if !valid {
      return None, errors, false;
    }
    action := Some(Action(editing, Data(form, editing)));
    if rejection.None? {
      closed := true;
    } else {
      errors := SubmitFailure(rejection.value, SaveFailed);
      closed := false;
    }
  }
}
