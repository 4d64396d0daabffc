/**
 * src/features/tabung/EditTabungModal.tsx: the form that edits a tabung,
 * filled from the tabung when it opens and checked by the same validation as
 * the create form.
 */
module EditTabungModal {

  import opened Wrappers
  import opened Types
  import opened Text
  import opened FormInput
  import opened Calendar
  import opened AddTabungModal

  /** The `onSubmit(id, data)` arguments of the edit form. */
  datatype UpdateTabungRequest = UpdateTabungRequest(id: string, fields: TabungFields)

  const UpdateFailed := "Failed to update tabung"

  /**
   * The form as the effect fills it (lines 34-44): the name, the description
   * and date or empty text, and the target as its own number.
   */
  function FormOf(t: Tabung): (form: TabungForm)
    ensures form.name == t.name && form.targetAmount == Num(t.targetAmount)
    ensures t.description.Some? ==> form.description == t.description.value
    ensures t.targetDate.None? ==> form.targetDate == []
  {
    TabungForm(t.name, OrDefault(t.description, ""), Num(t.targetAmount), OrDefault(t.targetDate, ""))
  }

  /**
   * Submitting the form untouched sends the tabung's own values back,
   * provided they are as the form would store them: a trimmed name, and a
   * description and date that are absent or non-empty (a description also
   * trimmed).
   */
  lemma UntouchedFormRoundTrip(t: Tabung)
    requires Trim(t.name) == t.name
    requires t.description.None? || (t.description.value != [] && Trim(t.description.value) == t.description.value)
    requires t.targetDate.None? || t.targetDate.value != []
    ensures Fields(FormOf(t)) == TabungFields(t.name, t.description, Some(t.targetAmount), t.targetDate)
  {
    var form := FormOf(t);
    assert Trim(form.name) == t.name;
    assert TrimmedOrNone(form.description) == t.description by {
      if t.description.Some? {
        TrimEmptyIffBlank(t.description.value);
      }
    }
    assert NonEmptyOrNone(form.targetDate) == t.targetDate by {
      if t.targetDate.Some? {
        assert form.targetDate == t.targetDate.value;
      } else {
        assert form.targetDate == [];
      }
    }
    assert ParseFloat(form.targetAmount) == Some(t.targetAmount);
  }

  /**
   * A tabung whose target date has passed cannot be saved untouched: the
   * date that was accepted when it was set is now rejected, and the user has
   * to clear or move it first.
   */
  lemma PassedTargetDateBlocksEdit(t: Tabung, d: Date, today: Date)
    requires ValidDate(d) && ValidDate(today) && DateLt(d, today)
    requires t.targetDate == Some(IsoDate(d))
    ensures !FormAccepted(FormOf(t), today)
  {
    TargetDateCheck(d, today);
  }

  /**
   * handleSubmit (lines 70-90). Without a tabung nothing happens (`errors`
   * is `None`); otherwise the form is validated (lines 46-68, the same
   * checks as the create form), and a valid one sends the tabung's id and
   * the fields, then closes when the request succeeds or shows the
   * failure's message.
   */
  method HandleSubmit(tabung: Option<Tabung>, form: TabungForm, today: Date, rejection: Option<Option<string>>)
    returns (request: Option<UpdateTabungRequest>, errors: Option<map<string, string>>, closed: bool)
    requires ValidDate(today)
    ensures tabung.None? ==> request.None? && errors.None? && !closed
    ensures request.Some? <==> tabung.Some? && FormAccepted(form, today)
    ensures tabung.Some? && request.None? ==> errors.Some? && errors.value != map[] && !closed
    ensures request.Some? ==> request.value == UpdateTabungRequest(tabung.value.id, Fields(form))
    ensures request.Some? ==> (closed <==> rejection.None?)
    ensures request.Some? && rejection.None? ==> errors == Some(map[])
    ensures request.Some? && rejection.Some? ==> errors == Some(SubmitFailure(rejection.value, UpdateFailed))
  {
    if tabung.None? {
      return None, None, false;
    }
    var newErrors, valid := ValidateForm(form, today);
    errors := Some(newErrors);
    if !valid {
      return None, errors, false;
    }
    request := Some(UpdateTabungRequest(tabung.value.id, Fields(form)));
    if rejection.None? {
      closed := true;
    } else {
      errors := Some(SubmitFailure(rejection.value, UpdateFailed));
      closed := false;
    }
  }
}
