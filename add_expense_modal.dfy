/**
 * src/features/expenses/AddExpenseModal.tsx: the form that records an
 * expense or edits one. `today` is the date of now in UTC, which both
 * `getTodayString` and the future-date check read from `toISOString`.
 */
module AddExpenseModal {

  import opened Wrappers
  import opened Types
  import opened Text
  import opened FormInput
  import opened Calendar

  /**
   * The modal's fields as typed. The two selects hold one of their options,
   * or the empty value (`None`) when the browser gives none.
   */
  datatype ExpenseForm = ExpenseForm(
    date: string, amount: Parsed<real>, category: Option<ExpenseCategory>,
    paymentMethod: Option<PaymentMethod>, description: string, notes: string)

  /** `expenseData`: the fields sent, a NaN amount being `None`. */
  datatype ExpenseData = ExpenseData(
    date: string, amount: Option<real>, category: ExpenseCategory, paymentMethod: PaymentMethod,
    description: string, notes: Option<string>, addedBy: UserRole)

  /** The action dispatched: an update of the edited expense, or a new one. */
  datatype ExpenseAction = CreateExpense(data: ExpenseData) | UpdateExpense(id: string, data: ExpenseData)

  const SaveFailed := "Failed to save expense"

  /** The form of a new expense (lines 57-65): today, no amount, groceries paid by debit. */
  function NewForm(today: Date): (form: ExpenseForm)
    requires ValidDate(today)
    ensures form.date == IsoDate(today) && form.amount.Blank?
    ensures form.category == Some(Groceries) && form.paymentMethod == Some(Debit)
    ensures form.description == [] && form.notes == []
  {
    ExpenseForm(IsoDate(today), Blank, Some(Groceries), Some(Debit), "", "")
  }

  /** The form of an edited expense (lines 47-55): its own fields, missing notes as empty text. */
  function FormOf(e: Expense): (form: ExpenseForm)
    ensures form.date == e.date && form.amount == Num(e.amount) && form.description == e.description
    ensures form.category == Some(e.category) && form.paymentMethod == Some(e.paymentMethod)
    ensures e.notes.Some? ==> form.notes == e.notes.value
  {
    ExpenseForm(e.date, Num(e.amount), Some(e.category), Some(e.paymentMethod), e.description, OrDefault(e.notes, ""))
  }

  /** The date check: a date after today's ISO date, compared as text. */
  predicate InFuture(date: string, today: Date)
    requires ValidDate(today)
  {
    StrLt(IsoDate(today), date)
  }

  /** The forms validateForm accepts. */
  predicate FormAccepted(form: ExpenseForm, today: Date)
    requires ValidDate(today)
  {
    form.date != [] && !InFuture(form.date, today)
    && !MissingOrNonPositive(form.amount)
    && form.category.Some? && form.paymentMethod.Some?
    && !IsBlank(form.description)
  }

  /**
   * The form's `errors` object: one optional message per key it can hold,
   * `submit` being the message of a failed save.
   */
  datatype ExpenseErrors = ExpenseErrors(
    date: Option<string>, amount: Option<string>, category: Option<string>,
    paymentMethod: Option<string>, description: Option<string>, submit: Option<string>)

  /** The empty object `{}`. */
  const NoErrors := ExpenseErrors(None, None, None, None, None, None)

  /**
   * validateForm (lines 70-100). Each field has at most one error: a missing
   * date, or one after today; a missing or non-positive amount (NaN passes);
   * an empty category or payment method; a blank description.
   */
  method ValidateForm(form: ExpenseForm, today: Date) returns (newErrors: ExpenseErrors, valid: bool)
    requires ValidDate(today)
    ensures newErrors.submit.None?
    ensures newErrors.date.Some? <==> form.date == [] || InFuture(form.date, today)
    ensures form.date == [] ==> newErrors.date == Some("Date is required")
    ensures form.date != [] && InFuture(form.date, today) ==> newErrors.date == Some("Date cannot be in the future")
    ensures newErrors.amount == if MissingOrNonPositive(form.amount) then Some("Amount must be greater than 0") else None
    ensures newErrors.category == if form.category.None? then Some("Category is required") else None
    ensures newErrors.paymentMethod == if form.paymentMethod.None? then Some("Payment method is required") else None
    ensures newErrors.description == if IsBlank(form.description) then Some("Description is required") else None
    ensures valid <==> newErrors == NoErrors
    ensures valid <==> FormAccepted(form, today)
  {
    TrimEmptyIffBlank(form.description);
    var noDate := form.date == [];
    var future := !noDate && InFuture(form.date, today);
    var noAmount := MissingOrNonPositive(form.amount);
    var blank := Trim(form.description) == [];
    newErrors := NoErrors;
    if noDate {
      newErrors := newErrors.(date := Some("Date is required"));
    } else if future {
      newErrors := newErrors.(date := Some("Date cannot be in the future"));
    }
    if noAmount {
      newErrors := newErrors.(amount := Some("Amount must be greater than 0"));
    }
    if form.category.None? {
      newErrors := newErrors.(category := Some("Category is required"));
    }
    if form.paymentMethod.None? {
      newErrors := newErrors.(paymentMethod := Some("Payment method is required"));
    }
    if blank {
      newErrors := newErrors.(description := Some("Description is required"));
    }
    valid := newErrors == NoErrors;
  }

  /** expenseData (lines 107-115) of an accepted form; the acting user is the current one, or the husband. */
  function Data(form: ExpenseForm, currentUser: Option<User>): (r: ExpenseData)
    requires form.category.Some? && form.paymentMethod.Some?
    ensures r.date == form.date && r.amount == ParseFloat(form.amount)
    ensures r.category == form.category.value && r.paymentMethod == form.paymentMethod.value
    ensures r.addedBy == ActingRole(currentUser)
  {
    ExpenseData(form.date, ParseFloat(form.amount), form.category.value, form.paymentMethod.value,
                Trim(form.description), TrimmedOrNone(form.notes), ActingRole(currentUser))
  }

  /** The action of a submit (lines 118-124): update when an expense is being edited, else create. */
  function Action(editing: Option<Expense>, data: ExpenseData): (r: ExpenseAction)
    ensures r.data == data
    ensures r.UpdateExpense? <==> editing.Some?
    ensures r.UpdateExpense? ==> r.id == editing.value.id
  {
    if editing.Some? then UpdateExpense(editing.value.id, data) else CreateExpense(data)
  }

  /**
   * What an accepted form sends: a date not after today, a positive amount
   * (or NaN), a description with no space at either end and not empty, and
   * notes that are absent or likewise trimmed and not empty.
   */
  lemma AcceptedData(form: ExpenseForm, today: Date, currentUser: Option<User>)
    requires ValidDate(today) && FormAccepted(form, today)
    ensures var d := Data(form, currentUser);
      d.date != [] && !StrLt(IsoDate(today), d.date)
      && (d.amount.None? || d.amount.value > 0.0)
      && d.description != [] && !IsSpace(d.description[0]) && !IsSpace(d.description[|d.description| - 1])
      && (d.notes.None? || (d.notes.value != [] && Trim(d.notes.value) == d.notes.value))
  {
    var d := Data(form, currentUser);
    assert d.description != [] by {
      TrimEmptyIffBlank(form.description);
    }
    assert d.notes.None? || (d.notes.value != [] && Trim(d.notes.value) == d.notes.value) by {
      TrimIdempotent(form.notes);
    }
  }

  /**
   * For a date typed through the date picker the text comparison is the
   * calendar one: a date is in the future exactly when it is after today.
   */
  lemma FutureDateCheck(d: Date, today: Date)
    requires ValidDate(d) && ValidDate(today)
    ensures InFuture(IsoDate(d), today) <==> DateLt(today, d)
  {
    IsoDateOrder(today, d);
  }

  /**
   * Saving an edited expense untouched sends its own fields back, provided
   * its date is not after today, its amount is positive and its description
   * and notes are as the form would store them; only `addedBy` changes, to
   * the user who saves.
   */
  lemma UntouchedEditRoundTrip(e: Expense, today: Date, currentUser: Option<User>)
    requires ValidDate(today) && e.date != [] && !InFuture(e.date, today) && e.amount > 0.0
    requires Trim(e.description) == e.description && e.description != []
    requires e.notes.None? || (e.notes.value != [] && Trim(e.notes.value) == e.notes.value)
    ensures FormAccepted(FormOf(e), today)
    ensures Data(FormOf(e), currentUser) ==
      ExpenseData(e.date, Some(e.amount), e.category, e.paymentMethod, e.description, e.notes, ActingRole(currentUser))
  {
    var form := FormOf(e);
    TrimEmptyIffBlank(e.description);
    assert FormAccepted(form, today);
    TrimmedOrNoneOfShown(e.notes);
    assert form.notes == OrDefault(e.notes, "");
  }

  /**
   * handleSubmit (lines 102-131). An invalid form dispatches nothing and
   * shows its errors; a valid one dispatches the update or the create, then
   * closes when it succeeds (`rejection` is `None`) or shows the failure's
   * message.
   */
  method HandleSubmit(editing: Option<Expense>, form: ExpenseForm, today: Date, currentUser: Option<User>,
                      rejection: Option<Option<string>>)
    returns (action: Option<ExpenseAction>, errors: ExpenseErrors, closed: bool)
    requires ValidDate(today)
    ensures action.Some? <==> FormAccepted(form, today)
    ensures action.None? ==> errors != NoErrors && errors.submit.None? && !closed
    ensures action.Some? ==> action.value == Action(editing, Data(form, currentUser))
    ensures action.Some? ==> (closed <==> rejection.None?)
    ensures action.Some? && rejection.None? ==> errors == NoErrors
    ensures action.Some? && rejection.Some? ==> errors == NoErrors.(submit := Some(OrDefault(rejection.value, SaveFailed)))
  {
    var valid;
    errors, valid := ValidateForm(form, today);
    if !valid {
      return None, errors, false;
    }
    action := Some(Action(editing, Data(form, currentUser)));
    if rejection.None? {
      closed := true;
    } else {
      errors := NoErrors.(submit := Some(OrDefault(rejection.value, SaveFailed)));
      closed := false;
    }
  }
}
