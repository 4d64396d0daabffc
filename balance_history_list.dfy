/**
 * src/features/balance/BalanceHistoryList.tsx: each balance change is shown
 * with its field's label, an up or down marker and the size of the change.
 */
module BalanceHistoryList {

  import opened Types

  /** getFieldLabel (lines 13-24): the three field names get a label, any other text is shown as it is. */
  function FieldLabel(field: string): (r: string)
    ensures field == "cash" ==> r == "Wallet"
    ensures field == "bank" ==> r == "Bank Balance"
    ensures field == "setAside" ==> r == "Reserved"
    ensures r == field <==> field !in {"cash", "bank", "setAside"}
  {
    if field == "cash" then "Wallet"
    else if field == "bank" then "Bank Balance"
    else if field == "setAside" then "Reserved"
    else field
  }

  /** isIncrease (line 46): strictly larger, so an unchanged value shows as a decrease. */
  predicate IsIncrease(entry: BalanceHistory)
  {
    entry.newValue > entry.oldValue
  }

  /** difference (line 47): `Math.abs(newValue - oldValue)`. */
  function Difference(entry: BalanceHistory): real
  {
    if entry.newValue - entry.oldValue < 0.0 then entry.oldValue - entry.newValue else entry.newValue - entry.oldValue
  }

  /** The sign in front of the difference (line 72). */
  function SignPrefix(entry: BalanceHistory): string
  {
    if IsIncrease(entry) then "+" else "-"
  }

  /**
   * The shown change reads back the change made: the difference is never
   * negative, and the sign with the difference takes the old value to the
   * new one; the sign is '+' exactly for an increase.
   */
  lemma ChangeReadsBack(entry: BalanceHistory)
    ensures Difference(entry) >= 0.0
    ensures SignPrefix(entry) == "+" <==> entry.newValue > entry.oldValue
    ensures SignPrefix(entry) == "+" ==> entry.oldValue + Difference(entry) == entry.newValue
    ensures SignPrefix(entry) == "-" ==> entry.oldValue - Difference(entry) == entry.newValue
    ensures Difference(entry) == 0.0 <==> entry.newValue == entry.oldValue
  {
  }

  /** An entry whose value did not change shows as "-" with a zero difference. */
  lemma UnchangedShowsAsDecrease(entry: BalanceHistory)
    requires entry.newValue == entry.oldValue
    ensures !IsIncrease(entry) && SignPrefix(entry) == "-" && Difference(entry) == 0.0
  {
  }

  /** The label of every stored field is its own and not the raw name; no two fields share one. */
  lemma FieldLabelsDistinct(f: BalanceField, g: BalanceField)
    ensures FieldLabel(FieldName(f)) != FieldName(f)
    ensures FieldLabel(FieldName(f)) == FieldLabel(FieldName(g)) <==> f == g
  {
  }
}
