/**
 * src/features/balance/BalanceCard.tsx: one user's balance with its total,
 * and the inline editor of its wallet and bank figures. The editor's state
 * (which field is open, the typed value and reason, whether a save is
 * running) is a class whose methods are the card's handlers.
 */
module BalanceCard {

  import opened Wrappers
  import opened Types
  import opened Text
  import opened FormInput

  /** `balance[field]`. */
  function FieldValue(b: Balance, f: BalanceField): real
  {
    match f
    case CashField => b.cash
    case BankField => b.bank
    case SetAsideField => b.setAside
  }

  /** The balance with one field set to `v`. */
  function WithField(b: Balance, f: BalanceField, v: real): Balance
  {
    match f
    case CashField => b.(cash := v)
    case BankField => b.(bank := v)
    case SetAsideField => b.(setAside := v)
  }

  /** total (line 23): the three figures added, whatever the stored `total` says. */
  function Total(b: Balance): real
  {
    b.cash + b.bank + b.setAside
  }

  /**
   * Setting one field moves the total by exactly that field's change and
   * leaves the other two figures alone.
   */
  lemma TotalAfterEdit(b: Balance, f: BalanceField, v: real)
    ensures Total(WithField(b, f, v)) == Total(b) - FieldValue(b, f) + v
    ensures FieldValue(WithField(b, f, v), f) == v
    ensures forall g: BalanceField | g != f :: FieldValue(WithField(b, f, v), g) == FieldValue(b, g)
  {
  }

  /** The total of figures that are not negative is at least each of them. */
  lemma TotalBoundsFields(b: Balance, f: BalanceField)
    requires b.cash >= 0.0 && b.bank >= 0.0 && b.setAside >= 0.0
    ensures Total(b) >= FieldValue(b, f) >= 0.0
  {
  }

  /** getFieldLabel (lines 59-70). */
  function FieldLabel(f: BalanceField): string
  {
    match f
    case CashField => "Wallet"
    case BankField => "Bank Balance"
    case SetAsideField => "Reserved"
  }

  /** The labels tell the fields apart. */
  lemma FieldLabelsDistinct(f: BalanceField, g: BalanceField)
    ensures FieldLabel(f) == FieldLabel(g) <==> f == g
  {
  }

  /** Whether the edit button shows on a field (lines 22, 171): the viewer's own balance, and not the reserved figure. */
  predicate EditOffered(viewer: UserRole, b: Balance, f: BalanceField)
  {
    viewer == b.user && f != SetAsideField
  }

  /**
   * Only the owner may edit, and only the wallet and the bank figure: the
   * reserved figure is never editable here, and the other user's balance
   * offers no field at all.
   */
  lemma EditPermission(viewer: UserRole, b: Balance)
    ensures !EditOffered(viewer, b, SetAsideField)
    ensures EditOffered(viewer, b, CashField) <==> viewer == b.user
    ensures EditOffered(viewer, b, BankField) <==> viewer == b.user
    ensures viewer != b.user ==> forall f: BalanceField :: !EditOffered(viewer, b, f)
  {
  }

  /** The `onUpdate(field, newValue, reason)` call of a save. */
  datatype UpdateCall = UpdateCall(field: BalanceField, newValue: real, reason: Option<string>)

  /** The editor's state, `editingField`, `editValue`, `reason` and `isSaving` (lines 16-20). */
  class Editor {
    var editingField: Option<BalanceField>
    var editValue: Parsed<real>
    var reason: string
    var isSaving: bool

    /** The open field, the typed value and the reason are the given ones. */
    predicate SameDraft(field: Option<BalanceField>, value: Parsed<real>, note: string)
      reads this
    {
      editingField == field && editValue == value && reason == note
    }

    /** No field open and nothing typed. */
    predicate Idle()
      reads this
    {
      editingField.None? && editValue.Blank? && reason == []
    }

    constructor ()
      ensures Idle() && !isSaving
    {
      editingField := None;
      editValue := Blank;
      reason := "";
      isSaving := false;
    }

    /** handleEdit (lines 25-29): opens the field with its current figure and an empty reason. */
    method HandleEdit(b: Balance, f: BalanceField)
      modifies this
      ensures editingField == Some(f) && editValue == Num(FieldValue(b, f)) && reason == []
      ensures isSaving == old(isSaving)
    {
      editingField := Some(f);
      editValue := Num(FieldValue(b, f));
      reason := "";
    }

    /** Whether a save may call `onUpdate` (lines 32-34): a field is open and its value is a number not below 0. */
    predicate SaveAllowed()
      reads this
    {
      editingField.Some? && editValue.Num? && editValue.value >= 0.0
    }

    /**
     * The start of handleSave (lines 31-37): with a field open and a value
     * that is a number not below 0, the save starts and `onUpdate` is called
     * with the field, the value and the trimmed reason or none; otherwise
     * nothing happens.
     */
    method BeginSave() returns (call: Option<UpdateCall>)
      modifies this
      ensures call.Some? <==> old(editingField).Some? && old(editValue).Num? && old(editValue).value >= 0.0
      ensures call.Some? ==> call.value == UpdateCall(old(editingField).value, old(editValue).value, TrimmedOrNone(old(reason)))
      ensures call.Some? ==> isSaving
      ensures call.None? ==> isSaving == old(isSaving)
      ensures SameDraft(old(editingField), old(editValue), old(reason))
    {
      var field, value, note := editingField, editValue, reason;
      if field.Some? && value.Num? && value.value >= 0.0 {
        call := Some(UpdateCall(field.value, value.value, TrimmedOrNone(note)));
        isSaving := true;
      } else {
        call := None;
      }
    }

    /**
     * The end of handleSave (lines 38-46): a save that succeeds closes the
     * editor, one that fails keeps everything so the user can retry, and
     * either way the save is over.
     */
    method EndSave(failed: bool)
      modifies this
      ensures !isSaving
      ensures !failed ==> Idle()
      ensures failed ==> SameDraft(old(editingField), old(editValue), old(reason))
    {
      if !failed {
        editingField := None;
        editValue := Blank;
        reason := "";
      }
      isSaving := false;
    }

    /** handleCancel (lines 51-57): closes the editor, except while a save is running, when it does nothing. */
    method HandleCancel()
      modifies this
      ensures old(isSaving) ==> SameDraft(old(editingField), old(editValue), old(reason))
      ensures !old(isSaving) ==> Idle()
      ensures isSaving == old(isSaving)
    {
      if !isSaving {
        editingField := None;
        editValue := Blank;
        reason := "";
      }
    }
  }

  /**
   * A round of editing on a balance the user owns: opening a field and
   * saving it untouched calls `onUpdate` with the field's own figure when
   * that is not negative, and a successful save leaves the editor idle.
   */
  method EditAndSaveUntouched(b: Balance, f: BalanceField) returns (call: Option<UpdateCall>, idle: bool)
    ensures call.Some? <==> FieldValue(b, f) >= 0.0
    ensures call.Some? ==> call.value == UpdateCall(f, FieldValue(b, f), None)
    ensures idle
  {
    var e := new Editor();
    e.HandleEdit(b, f);
    assert TrimmedOrNone(e.reason) == None;
    call := e.BeginSave();
    if call.Some? {
      e.EndSave(false);
    } else {
      e.HandleCancel();
    }
    idle := e.Idle() && !e.isSaving;
  }

  /** A cancel pressed while the save runs is lost: after a failed save the editor is still open on the same field. */
  method CancelDuringFailedSave(b: Balance, f: BalanceField) returns (open: Option<BalanceField>)
    requires FieldValue(b, f) >= 0.0
    ensures open == Some(f)
  {
    var e := new Editor();
    e.HandleEdit(b, f);
    assert e.SaveAllowed();
    var call := e.BeginSave();
    assert call.Some?;
    e.HandleCancel();
    e.EndSave(true);
    open := e.editingField;
  }
}
