/**
 * src/features/income/IncomeModal.tsx: the form that records an income or
 * edits one. Its date check is the one of AddExpenseModal.tsx, reused here;
 * `today` is the date of now in UTC.
 */
module IncomeModal {

  import opened Wrappers
  import opened Types
  import opened Text
  import opened FormInput
  import opened Calendar
  import AddExpenseModal

  /** The modal's fields as typed; a select without a value is `None`. */
  datatype IncomeForm = IncomeForm(
    date: string, amount: Parsed<real>, source: Option<IncomeSource>, user: Option<UserRole>, notes: string)

  /** `incomeData`: the fields sent, a NaN amount being `None`. */
  datatype IncomeData = IncomeData(
    date: string, amount: Option<real>, source: IncomeSource, user: UserRole,
    notes: Option<string>, addedBy: UserRole)

  /** The action dispatched: an update of the edited income, or a new one. */
  datatype IncomeAction = CreateIncome(data: IncomeData) | UpdateIncome(id: string, data: IncomeData)

  /** The form's `errors` object, one optional message per key. */
  datatype IncomeErrors = IncomeErrors(
    date: Option<string>, amount: Option<string>, source: Option<string>, user: Option<string>, submit: Option<string>)

  /** The empty object `{}`. */
  const NoErrors := IncomeErrors(None, None, None, None, None)

  const SaveFailed := "Failed to save income"

  /**
   * The form of a new income (lines 57-64): today, no amount, a salary, and
   * the signed-in user as the one it belongs to (the husband when signed
   * out).
   */
  function NewForm(today: Date, currentUser: Option<User>): (form: IncomeForm)
    requires ValidDate(today)
    ensures form.date == IsoDate(today) && form.amount.Blank? && form.source == Some(Salary) && form.notes == []
    ensures form.user == Some(ActingRole(currentUser))
    ensures currentUser.None? ==> form.user == Some(Husband)
  {
    IncomeForm(IsoDate(today), Blank, Some(Salary), Some(ActingRole(currentUser)), "")
  }

  /** The form of an edited income (lines 48-55): its own fields, missing notes as empty text. */
  function FormOf(i: Income): (form: IncomeForm)
    ensures form.date == i.date && form.amount == Num(i.amount)
    ensures form.source == Some(i.source) && form.user == Some(i.user)
    ensures i.notes.Some? ==> form.notes == i.notes.value
  {
    IncomeForm(i.date, Num(i.amount), Some(i.source), Some(i.user), OrDefault(i.notes, ""))
  }

  /** The forms validateForm accepts. */
  predicate FormAccepted(form: IncomeForm, today: Date)
    requires ValidDate(today)
  {
    form.date != [] && !AddExpenseModal.InFuture(form.date, today)
    && !MissingOrNonPositive(form.amount)
    && form.source.Some? && form.user.Some?
  }

  /**
   * validateForm (lines 69-95): a missing date or one after today, a missing
   * or non-positive amount (NaN passes), and an empty source or user each
   * give their field's message.
   */
  method ValidateForm(form: IncomeForm, today: Date) returns (newErrors: IncomeErrors, valid: bool)
    requires ValidDate(today)
    ensures newErrors.submit.None?
    ensures newErrors.date.Some? <==> form.date == [] || AddExpenseModal.InFuture(form.date, today)
    ensures form.date == [] ==> newErrors.date == Some("Date is required")
    ensures form.date != [] && AddExpenseModal.InFuture(form.date, today) ==>
      newErrors.date == Some("Date cannot be in the future")
    ensures newErrors.amount == if MissingOrNonPositive(form.amount) then Some("Amount must be greater than 0") else None
    ensures newErrors.source == if form.source.None? then Some("Source is required") else None
    ensures newErrors.user == if form.user.None? then Some("User is required") else None
    ensures valid <==> newErrors == NoErrors
    ensures valid <==> FormAccepted(form, today)
  {
    var noDate := form.date == [];
    var future := !noDate && AddExpenseModal.InFuture(form.date, today);
    var noAmount := MissingOrNonPositive(form.amount);
    newErrors := NoErrors;
    if noDate {
      newErrors := newErrors.(date := Some("Date is required"));
    } else if future {
      newErrors := newErrors.(date := Some("Date cannot be in the future"));
    }
    if noAmount {
      newErrors := newErrors.(amount := Some("Amount must be greater than 0"));
    }
    if form.source.None? {
      newErrors := newErrors.(source := Some("Source is required"));
    }
    if form.user.None? {
      newErrors := newErrors.(user := Some("User is required"));
    }
    valid := newErrors == NoErrors;
  }

  /** incomeData (lines 102-109) of an accepted form; `addedBy` is the signed-in user, or the husband. */
  function Data(form: IncomeForm, currentUser: Option<User>): (r: IncomeData)
    requires form.source.Some? && form.user.Some?
    ensures r.date == form.date && r.amount == ParseFloat(form.amount)
    ensures r.source == form.source.value && r.user == form.user.value
    ensures r.notes.None? <==> IsBlank(form.notes)
    ensures r.addedBy == ActingRole(currentUser)
  {
    IncomeData(form.date, ParseFloat(form.amount), form.source.value, form.user.value,
               TrimmedOrNone(form.notes), ActingRole(currentUser))
  }

  /** The action of a submit (lines 111-118): update when an income is being edited, else create. */
  function Action(editing: Option<Income>, data: IncomeData): (r: IncomeAction)
    ensures r.data == data
    ensures r.UpdateIncome? <==> editing.Some?
    ensures r.UpdateIncome? ==> r.id == editing.value.id
  {
    if editing.Some? then UpdateIncome(editing.value.id, data) else CreateIncome(data)
  }

  /**
   * A new income saved with the user field left alone belongs to the one
   * who adds it: its `user` and `addedBy` are the same role.
   */
  lemma NewIncomeBelongsToAdder(today: Date, currentUser: Option<User>, amount: Parsed<real>)
    requires ValidDate(today)
    ensures var d := Data(NewForm(today, currentUser).(amount := amount), currentUser);
      d.user == d.addedBy && d.date == IsoDate(today) && d.source == Salary && d.notes.None?
  {
  }

  /**
   * Saving an edited income untouched sends its own fields back, provided
   * its date is not after today, its amount is positive and its notes are
   * absent or trimmed and not empty; `addedBy` becomes the user who saves.
   */
  lemma UntouchedEditRoundTrip(i: Income, today: Date, currentUser: Option<User>)
    requires ValidDate(today) && i.date != [] && !AddExpenseModal.InFuture(i.date, today) && i.amount > 0.0
    requires i.notes.None? || (i.notes.value != [] && Trim(i.notes.value) == i.notes.value)
    ensures FormAccepted(FormOf(i), today)
    ensures Data(FormOf(i), currentUser) ==
      IncomeData(i.date, Some(i.amount), i.source, i.user, i.notes, ActingRole(currentUser))
  {
    var form := FormOf(i);
    assert FormAccepted(form, today);
    TrimmedOrNoneOfShown(i.notes);
    assert form.notes == OrDefault(i.notes, "");
  }

  /**
   * handleSubmit (lines 97-125). An invalid form dispatches nothing; a valid
   * one dispatches the update or the create, then closes when it succeeds
   * (`rejection` is `None`) or shows the failure's message.
   */
  method HandleSubmit(editing: Option<Income>, form: IncomeForm, today: Date, currentUser: Option<User>,
                      rejection: Option<Option<string>>)
    returns (action: Option<IncomeAction>, errors: IncomeErrors, closed: bool)
    requires ValidDate(today)
    ensures action.Some? <==> FormAccepted(form, today)
    ensures action.None? ==> errors != NoErrors && errors.submit.None? && !closed
    ensures action.Some? ==> action.value == Action(editing, Data(form, currentUser))
    ensures action.Some? ==> (closed <==> rejection.None?)
    ensures action.Some? && rejection.None? ==> errors == NoErrors
    ensures action.Some? && rejection.Some? ==> errors == NoErrors.(submit := Some(OrDefault(rejection.value, SaveFailed)))
  {
    var valid;
    errors, valid := ValidateForm(form, today);
    if !valid {
      return None, errors, false;
    }
    action := Some(Action(editing, Data(form, currentUser)));
    if rejection.None? {
      closed := true;
    } else {
      errors := NoErrors.(submit := Some(OrDefault(rejection.value, SaveFailed)));
      closed := false;
    }
  }
}
