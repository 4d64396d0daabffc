/**
 * src/features/reserved/AddReservedModal.tsx: setting money aside for a
 * purpose, with an optional due date. `today` is the date of now in UTC.
 */
module AddReservedModal {

  import opened Wrappers
  import opened Types
  import opened Text
  import opened FormInput
  import opened Calendar

  /** The modal's fields as typed; an empty due date is none. */
  datatype ReservedForm = ReservedForm(purpose: string, amount: Parsed<real>, dueDate: string)

  /** The `createReservedItem` argument: a NaN amount is `None`, an empty due date is left out. */
  datatype NewReserved = NewReserved(user: UserRole, purpose: string, amount: Option<real>, dueDate: Option<string>)

  const CreateFailed := "Failed to create reserved item"

  /** The empty form, set again whenever the modal closes (lines 26-44). */
  const EmptyForm := ReservedForm("", Blank, "")

  /** The due-date check: a date before today's ISO date, compared as text. */
  predicate InPast(dueDate: string, today: Date)
    requires ValidDate(today)
  {
    StrLt(dueDate, IsoDate(today))
  }

  /** The forms validateForm accepts; the due date may be left empty. */
  predicate FormAccepted(form: ReservedForm, today: Date)
    requires ValidDate(today)
  {
    !IsBlank(form.purpose) && !MissingOrNonPositive(form.amount)
    && (form.dueDate == [] || !InPast(form.dueDate, today))
  }

  /**
   * validateForm (lines 46-66): a blank purpose, a missing or non-positive
   * amount (NaN passes) and a due date before today each give their field's
   * message. EditReservedModal.tsx, lines 44-64, holds the same checks.
   */
  method ValidateForm(form: ReservedForm, today: Date) returns (newErrors: map<string, string>, valid: bool)
    requires ValidDate(today)
    ensures newErrors.Keys <= {"purpose", "amount", "dueDate"}
    ensures "purpose" in newErrors <==> IsBlank(form.purpose)
    ensures "purpose" in newErrors ==> newErrors["purpose"] == "Purpose is required"
    ensures "amount" in newErrors <==> MissingOrNonPositive(form.amount)
    ensures "amount" in newErrors ==> newErrors["amount"] == "Amount must be greater than 0"
    ensures "dueDate" in newErrors <==> form.dueDate != [] && InPast(form.dueDate, today)
    ensures "dueDate" in newErrors ==> newErrors["dueDate"] == "Due date cannot be in the past"
    ensures valid <==> newErrors == map[]
    ensures valid <==> FormAccepted(form, today)
  {
    TrimEmptyIffBlank(form.purpose);
    var blank := Trim(form.purpose) == [];
    var noAmount := MissingOrNonPositive(form.amount);
    var past := form.dueDate != [] && InPast(form.dueDate, today);
    newErrors := map[];
    if blank {
      newErrors := newErrors["purpose" := "Purpose is required"];
    }
    if noAmount {
      newErrors := newErrors["amount" := "Amount must be greater than 0"];
    }
    if past {
      newErrors := newErrors["dueDate" := "Due date cannot be in the past"];
    }
    valid := |newErrors| == 0;
  }

  /** The due date sent: `dueDate || undefined`. */
  function DueDateOrNone(dueDate: string): (r: Option<string>)
    ensures r.None? <==> dueDate == []
    ensures r.Some? ==> r.value == dueDate
  {
    if dueDate == [] then None else Some(dueDate)
  }

  /** The request of an accepted form (lines 73-80) for the user whose page the modal is on. */
  function Request(user: UserRole, form: ReservedForm): (r: NewReserved)
    ensures r.user == user && r.purpose == Trim(form.purpose) && r.amount == ParseFloat(form.amount)
    ensures r.dueDate == DueDateOrNone(form.dueDate)
  {
    NewReserved(user, Trim(form.purpose), ParseFloat(form.amount), DueDateOrNone(form.dueDate))
  }

  /**
   * What an accepted form sends: a purpose with no space at either end and
   * not empty, a positive amount (or NaN), and a due date that is absent or
   * not before today.
   */
  lemma AcceptedRequest(user: UserRole, form: ReservedForm, today: Date)
    requires ValidDate(today) && FormAccepted(form, today)
    ensures var r := Request(user, form);
      r.purpose != [] && !IsSpace(r.purpose[0]) && !IsSpace(r.purpose[|r.purpose| - 1])
      && (r.amount.None? || r.amount.value > 0.0)
      && (r.dueDate.None? || !InPast(r.dueDate.value, today))
  {
    TrimEmptyIffBlank(form.purpose);
  }

  /**
   * For a date typed through the date picker the text comparison is the
   * calendar one: a due date is refused exactly when it is before today,
   * so today itself is accepted.
   */
  lemma PastDueDateCheck(d: Date, today: Date)
    requires ValidDate(d) && ValidDate(today)
    ensures InPast(IsoDate(d), today) <==> DateLt(d, today)
    ensures !InPast(IsoDate(today), today)
  {
    IsoDateOrder(d, today);
    IsoDateOrder(today, today);
  }

  /** The empty form is refused, for its purpose and amount but not its date. */
  lemma EmptyFormRefused(today: Date)
    requires ValidDate(today)
    ensures IsBlank(EmptyForm.purpose) && MissingOrNonPositive(EmptyForm.amount)
    ensures !FormAccepted(EmptyForm, today)
  {
  }

  /**
   * handleSubmit (lines 68-88). An invalid form sends nothing and shows its
   * errors; a valid one sends the new item, then closes when the request
   * succeeds (`rejection` is `None`) or shows the failure's message.
   */
  method HandleSubmit(user: UserRole, form: ReservedForm, today: Date, rejection: Option<Option<string>>)
    returns (request: Option<NewReserved>, errors: map<string, string>, closed: bool)
    requires ValidDate(today)
    ensures request.Some? <==> FormAccepted(form, today)
    ensures request.None? ==> errors != map[] && !closed
    ensures request.Some? ==> request.value == Request(user, form)
    ensures request.Some? ==> (closed <==> rejection.None?)
    ensures request.Some? && rejection.None? ==> errors == map[]
    ensures request.Some? && rejection.Some? ==> errors == SubmitFailure(rejection.value, CreateFailed)
  {
    var valid;
    errors, valid := ValidateForm(form, today);
    if !valid {
      return None, errors, false;
    }
    request := Some(Request(user, form));
    if rejection.None? {
      closed := true;
    } else {
      errors := SubmitFailure(rejection.value, CreateFailed);
      closed := false;
    }
  }
}
