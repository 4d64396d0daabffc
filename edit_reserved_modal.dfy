/**
 * src/features/reserved/EditReservedModal.tsx: changing a reserved item's
 * purpose, amount or due date. Its checks are those of AddReservedModal.tsx.
 */
module EditReservedModal {

  import opened Wrappers
  import opened Types
  import opened Text
  import opened FormInput
  import opened Calendar
  import opened AddReservedModal

  /** The `updateReservedItem` argument: the item's id and its new fields. */
  datatype ReservedUpdate = ReservedUpdate(id: string, purpose: string, amount: Option<real>, dueDate: Option<string>)

  const UpdateFailed := "Failed to update reserved item"

  /** The form the effect sets for an item (lines 33-42): its own fields, no due date as empty text. */
  function FormOf(item: Reserved): (form: ReservedForm)
    ensures form.purpose == item.purpose && form.amount == Num(item.amount)
    ensures item.dueDate.Some? ==> form.dueDate == item.dueDate.value
    ensures item.dueDate.None? ==> form.dueDate == []
  {
    ReservedForm(item.purpose, Num(item.amount), OrDefault(item.dueDate, ""))
  }

  /** The request for the item (lines 72-80). */
  function Update(item: Reserved, form: ReservedForm): (r: ReservedUpdate)
    ensures r.id == item.id && r.purpose == Trim(form.purpose) && r.amount == ParseFloat(form.amount)
    ensures r.dueDate == DueDateOrNone(form.dueDate)
  {
    ReservedUpdate(item.id, Trim(form.purpose), ParseFloat(form.amount), DueDateOrNone(form.dueDate))
  }

  /**
   * Saving an item untouched sends its own fields back, for an item whose
   * purpose is trimmed and not empty, whose amount is positive and whose due
   * date is absent or, not empty, not before today.
   */
  lemma UntouchedFormRoundTrip(item: Reserved, today: Date)
    requires ValidDate(today)
    requires Trim(item.purpose) == item.purpose && item.purpose != [] && item.amount > 0.0
    requires item.dueDate.None? || (item.dueDate.value != [] && !InPast(item.dueDate.value, today))
    ensures FormAccepted(FormOf(item), today)
    ensures Update(item, FormOf(item)) == ReservedUpdate(item.id, item.purpose, Some(item.amount), item.dueDate)
  {
    TrimEmptyIffBlank(item.purpose);
  }

  /**
   * An item whose due date has gone by cannot be saved as it stands, not
   * even for a new purpose or amount: the date must be changed or cleared.
   */
  lemma OverdueItemNeedsNewDate(item: Reserved, today: Date, form: ReservedForm)
    requires ValidDate(today) && item.dueDate.Some? && item.dueDate.value != [] && InPast(item.dueDate.value, today)
    requires form == FormOf(item).(purpose := form.purpose, amount := form.amount)
    ensures !FormAccepted(form, today)
  {
  }

  /**
   * handleSubmit (lines 66-88). The form is validated even without an item,
   * but only with one is the update sent; it then closes when the request
   * succeeds (`rejection` is `None`) or shows the failure's message.
   */
  method HandleSubmit(item: Option<Reserved>, form: ReservedForm, today: Date, rejection: Option<Option<string>>)
    returns (request: Option<ReservedUpdate>, errors: map<string, string>, closed: bool)
    requires ValidDate(today)
    ensures request.Some? <==> item.Some? && FormAccepted(form, today)
    ensures request.None? ==> !closed && (errors == map[] <==> FormAccepted(form, today))
    ensures request.Some? ==> request.value == Update(item.value, form)
    ensures request.Some? ==> (closed <==> rejection.None?)
    ensures request.Some? && rejection.None? ==> errors == map[]
    ensures request.Some? && rejection.Some? ==> errors == SubmitFailure(rejection.value, UpdateFailed)
  {
    var valid;
    errors, valid := ValidateForm(form, today);
    if !valid || item.None? {
      return None, errors, false;
    }
    request := Some(Update(item.value, form));
    if rejection.None? {
      closed := true;
    } else {
      errors := SubmitFailure(rejection.value, UpdateFailed);
      closed := false;
    }
  }
}
