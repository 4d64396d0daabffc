/**
 * src/features/tabung/AddTabungModal.tsx: the form that creates a tabung.
 * Its validateForm is word for word the one of EditTabungModal.tsx (lines
 * 46-68), so both modals are modelled by the one `ValidateForm` here.
 */
module AddTabungModal {

  import opened Wrappers
  import opened Types
  import opened Text
  import opened FormInput
  import opened Calendar

  /** The form's `formData`: the four fields as typed. */
  datatype TabungForm = TabungForm(name: string, description: string, targetAmount: Parsed<real>, targetDate: string)

  /** The data the form submits: trimmed, parsed, empty fields left out. */
  datatype TabungFields = TabungFields(
    name: string, description: Option<string>, targetAmount: Option<real>, targetDate: Option<string>)

  /** The `onSubmit` argument of the create form: the owner and the fields. */
  datatype NewTabungRequest = NewTabungRequest(user: UserRole, fields: TabungFields)

  const MaxNameLength := 100
  const CreateFailed := "Failed to create tabung"

  /** The target-date check: a date earlier than today's ISO date, compared as text. */
  predicate TargetDateInPast(targetDate: string, today: Date)
    requires ValidDate(today)
  {
    targetDate != [] && StrLt(targetDate, IsoDate(today))
  }

  /** The forms validateForm accepts. */
  predicate FormAccepted(form: TabungForm, today: Date)
    requires ValidDate(today)
  {
    !IsBlank(form.name) && Utf16Length(form.name) <= MaxNameLength
    && !MissingOrNonPositive(form.targetAmount)
    && !TargetDateInPast(form.targetDate, today)
  }

  /**
   * validateForm (lines 48-70). Each field has at most one error: the name
   * must have a non-space character and at most 100 UTF-16 code units
   * (counted before trimming), the target must be present and positive, and a
   * target date must not be earlier than today.
   */
  method ValidateForm(form: TabungForm, today: Date) returns (newErrors: map<string, string>, valid: bool)
    requires ValidDate(today)
    ensures newErrors.Keys <= {"name", "targetAmount", "targetDate"}
    ensures "name" in newErrors <==> IsBlank(form.name) || Utf16Length(form.name) > MaxNameLength
    ensures IsBlank(form.name) ==> newErrors["name"] == "Tabung name is required"
    ensures !IsBlank(form.name) && Utf16Length(form.name) > MaxNameLength ==> newErrors["name"] == "Name cannot exceed 100 characters"
    ensures "targetAmount" in newErrors <==> MissingOrNonPositive(form.targetAmount)
    ensures "targetAmount" in newErrors ==> newErrors["targetAmount"] == "Target amount must be greater than 0"
    ensures "targetDate" in newErrors <==> TargetDateInPast(form.targetDate, today)
    ensures "targetDate" in newErrors ==> newErrors["targetDate"] == "Target date cannot be in the past"
    ensures valid <==> newErrors == map[]
    ensures valid <==> FormAccepted(form, today)
  {
    TrimEmptyIffBlank(form.name);
    var blank := Trim(form.name) == [];
    var tooLong := Utf16Length(form.name) > MaxNameLength;
    var noTarget := MissingOrNonPositive(form.targetAmount);
    var past := TargetDateInPast(form.targetDate, today);
    newErrors := map[];
    if blank {
      newErrors := newErrors["name" := "Tabung name is required"];
    } else if tooLong {
      newErrors := newErrors["name" := "Name cannot exceed 100 characters"];
    }
    if noTarget {
      newErrors := newErrors["targetAmount" := "Target amount must be greater than 0"];
    }
    if past {
      newErrors := newErrors["targetDate" := "Target date cannot be in the past"];
    }
    valid := |newErrors| == 0;
  }

  /** The submitted fields (lines 81-85). */
  function Fields(form: TabungForm): (r: TabungFields)
    ensures r.description.None? <==> IsBlank(form.description)
    ensures r.targetAmount.Some? <==> form.targetAmount.Num?
    ensures r.targetDate.None? <==> form.targetDate == []
  {
    TabungFields(Trim(form.name), TrimmedOrNone(form.description), ParseFloat(form.targetAmount), NonEmptyOrNone(form.targetDate))
  }

  /**
   * What an accepted form submits: a non-empty name of at most 100
   * code units with no space at either end, a target that is positive (or
   * NaN, which the check lets through), and a target date that is absent or
   * not before today.
   */
  lemma AcceptedFields(form: TabungForm, today: Date)
    requires ValidDate(today) && FormAccepted(form, today)
    ensures var f := Fields(form);
      f.name != [] && Utf16Length(f.name) <= MaxNameLength && !IsSpace(f.name[0]) && !IsSpace(f.name[|f.name| - 1])
      && (f.targetAmount.None? || f.targetAmount.value > 0.0)
      && (f.targetDate.None? || !StrLt(f.targetDate.value, IsoDate(today)))
  {
    var f := Fields(form);
    assert f == TabungFields(Trim(form.name), TrimmedOrNone(form.description), ParseFloat(form.targetAmount),
                             NonEmptyOrNone(form.targetDate));
    AcceptedName(form.name);
    assert f.targetAmount.None? || f.targetAmount.value > 0.0;
    AcceptedTargetDate(form.targetDate, today);
  }

  lemma AcceptedName(name: string)
    requires !IsBlank(name) && Utf16Length(name) <= MaxNameLength
    ensures var t := Trim(name);
      t != [] && Utf16Length(t) <= MaxNameLength && !IsSpace(t[0]) && !IsSpace(t[|t| - 1])
  {
    TrimEmptyIffBlank(name);
    Utf16LengthTrim(name);
  }

  lemma AcceptedTargetDate(targetDate: string, today: Date)
    requires ValidDate(today) && !TargetDateInPast(targetDate, today)
    ensures var d := NonEmptyOrNone(targetDate);
      d.None? || !StrLt(d.value, IsoDate(today))
  {
  }

  /**
   * For a date typed through the date picker the text comparison is the
   * calendar one: a date is rejected exactly when it is before today, and
   * today itself is accepted.
   */
  lemma TargetDateCheck(d: Date, today: Date)
    requires ValidDate(d) && ValidDate(today)
    ensures TargetDateInPast(IsoDate(d), today) <==> DateLt(d, today)
    ensures !TargetDateInPast(IsoDate(today), today)
  {
    IsoDateOrder(d, today);
    IsoDateOrder(today, today);
  }

  /**
   * handleSubmit (lines 72-93). An invalid form sends nothing and shows its
   * errors; a valid one sends the owner and the fields, then closes when the
   * request succeeds (`rejection` is `None`) or shows the failure's message.
   */
  method HandleSubmit(user: UserRole, form: TabungForm, today: Date, rejection: Option<Option<string>>)
    returns (request: Option<NewTabungRequest>, errors: map<string, string>, closed: bool)
    requires ValidDate(today)
    ensures request.Some? <==> FormAccepted(form, today)
    ensures request.None? ==> errors != map[] && !closed
    ensures request.Some? ==> request.value == NewTabungRequest(user, Fields(form))
    ensures request.Some? ==> (closed <==> rejection.None?)
    ensures request.Some? && rejection.None? ==> errors == map[]
    ensures request.Some? && rejection.Some? ==> errors == SubmitFailure(rejection.value, CreateFailed)
  {
    var valid;
    errors, valid := ValidateForm(form, today);
    if !valid {
      return None, errors, false;
    }
    request := Some(NewTabungRequest(user, Fields(form)));
    if rejection.None? {
      closed := true;
    } else {
      errors := SubmitFailure(rejection.value, CreateFailed);
      closed := false;
    }
  }
}
