/**
 * src/features/bills/UpcomingBillsList.tsx: the same urgency bands, a badge
 * without an "Overdue" case, and the empty state.
 */
module UpcomingBillsList {

  import opened Wrappers
  import opened Types
  import opened Text
  import opened BillList

  /** getBillUrgency (lines 14-18): the same thresholds as the bill list's. */
  function UpcomingUrgency(daysUntil: Option<int>): Urgency
  {
    match daysUntil
    case None => Info
    case Some(d) => if d <= 3 then Danger else if d <= 7 then Warning else Info
  }

  /** Both lists classify every day count alike. */
  lemma SameUrgency(daysUntil: Option<int>)
    ensures UpcomingUrgency(daysUntil) == BillUrgency(daysUntil)
  {
  }

  /** The badge's text (line 56): no "Overdue" case. */
  function UpcomingBadgeText(daysUntil: Option<int>): string
  {
    if daysUntil == Some(0) then "Due Today" else DaysText(daysUntil)
  }

  /**
   * Past due dates read as a negative count, "-Nd", where the bill list says
   * "Overdue"; everywhere else the two badges agree.
   */
  lemma UpcomingBadgeNegative(d: int)
    ensures d < 0 ==> UpcomingBadgeText(Some(d)) == "-" + NatToString(-d) + "d"
    ensures d < 0 ==> UpcomingBadgeText(Some(d)) != DueBadgeText(Some(d))
    ensures d >= 0 ==> UpcomingBadgeText(Some(d)) == DueBadgeText(Some(d))
  {
    if d < 0 {
      assert UpcomingBadgeText(Some(d))[0] == '-';
    }
  }

  /** What the card shows (lines 23-28, 64-68). */
  datatype View = View(emptyState: bool, rows: nat, viewAllButton: bool)

  function UpcomingView(bills: seq<Bill>): View
  {
    View(|bills| == 0, |bills|, |bills| > 0)
  }

  /** The empty state and the "View All Bills" button exclude each other, and rows appear only without the empty state. */
  lemma UpcomingViewSpec(bills: seq<Bill>)
    ensures UpcomingView(bills).emptyState <==> bills == []
    ensures UpcomingView(bills).viewAllButton <==> !UpcomingView(bills).emptyState
    ensures UpcomingView(bills).rows == |bills|
  {
  }
}
