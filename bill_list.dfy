/**
 * src/features/bills/BillList.tsx: the urgency of a bill from its day count,
 * the due badge, and which controls a row shows.
 */
module BillList {

  import opened Wrappers
  import opened Types
  import opened Text

  datatype Urgency = Danger | Warning | Info

  /**
   * getBillUrgency (lines 25-29), on the day count getDaysUntilDate gives;
   * `None` is its NaN, for which both comparisons are false.
   */
  function BillUrgency(daysUntil: Option<int>): Urgency
  {
    match daysUntil
    case None => Info
    case Some(d) => if d <= 3 then Danger else if d <= 7 then Warning else Info
  }

  /** Three days or fewer (overdue included) is danger, four to seven is a warning, the rest is information. */
  lemma BillUrgencyBands(d: int)
    ensures BillUrgency(Some(d)) == Danger <==> d <= 3
    ensures BillUrgency(Some(d)) == Warning <==> 4 <= d <= 7
    ensures BillUrgency(Some(d)) == Info <==> d > 7
    ensures BillUrgency(None) == Info
  {
  }

  /** `${n}d` for a number, and "NaNd" for NaN. */
  function DaysText(daysUntil: Option<int>): string
  {
    match daysUntil
    case None => "NaNd"
    case Some(d) => IntToString(d) + "d"
  }

  /** The due badge's text (line 99). */
  function DueBadgeText(daysUntil: Option<int>): string
  {
    if daysUntil == Some(0) then "Due Today"
    else if daysUntil.Some? && daysUntil.value < 0 then "Overdue"
    else DaysText(daysUntil)
  }

  /** The due badge of a row (lines 97-101): shown for an unpaid bill only. */
  function DueBadge(bill: Bill, daysUntil: Option<int>): Option<(Urgency, string)>
  {
    if !bill.isPaid then Some((BillUrgency(daysUntil), DueBadgeText(daysUntil))) else None
  }

  /** The "Mark Paid" button (lines 128-136): an unpaid bill, and a handler was given. */
  function ShowMarkPaid(bill: Bill, hasMarkAsPaidHandler: bool): bool
  {
    !bill.isPaid && hasMarkAsPaidHandler
  }

  /**
   * A paid bill shows neither the badge nor the button; an unpaid one always
   * shows the badge, reading "Due Today" on the day, "Overdue" after it and
   * the number of days before it.
   */
  lemma RowControls(bill: Bill, daysUntil: Option<int>, hasMarkAsPaidHandler: bool)
    ensures DueBadge(bill, daysUntil).Some? <==> !bill.isPaid
    ensures ShowMarkPaid(bill, hasMarkAsPaidHandler) ==> DueBadge(bill, daysUntil).Some?
    ensures ShowMarkPaid(bill, hasMarkAsPaidHandler) <==> !bill.isPaid && hasMarkAsPaidHandler
    ensures !bill.isPaid ==> DueBadge(bill, daysUntil).value.0 == BillUrgency(daysUntil)
    ensures DueBadgeText(Some(0)) == "Due Today"
    ensures daysUntil.Some? && daysUntil.value < 0 ==> DueBadgeText(daysUntil) == "Overdue"
    ensures daysUntil.Some? && daysUntil.value > 0 ==>
      DueBadgeText(daysUntil) == NatToString(daysUntil.value) + "d"
  {
  }
}
