/** src/features/reserved/ReservedList.tsx: the due-date status of a reserved item. */
module ReservedList {

  import opened Wrappers
  import opened Calendar
  import opened DateUtils

  datatype DueStatus = Overdue | DueSoon | Normal

  /**
   * getDueDateStatus (lines 22-29): no status without a due date (an empty
   * string counts as none); a date that does not parse compares false both
   * times, so it is 'normal'.
   */
  function DueDateStatus(dueDate: Option<string>, today: Date): Option<DueStatus>
    requires ValidDate(today)
  {
    if dueDate.None? || dueDate.value == "" then None
    else
      match DaysUntil(dueDate.value, today)
      case None => Some(Normal)
      case Some(n) => if n < 0 then Some(Overdue) else if n <= 7 then Some(DueSoon) else Some(Normal)
  }

  /**
   * For a real date the four outcomes are exclusive and exhaustive: none
   * without a date, overdue before today, due soon from today to seven days
   * on, normal after that.
   */
  lemma DueDateStatusSpec(d: Date, today: Date)
    requires ValidDate(d) && ValidDate(today)
    ensures DueDateStatus(None, today).None? && DueDateStatus(Some(""), today).None?
    ensures var n := DayNumber(d) - DayNumber(today);
      (DueDateStatus(Some(IsoDate(d)), today) == Some(Overdue) <==> DateLt(d, today))
      && (DueDateStatus(Some(IsoDate(d)), today) == Some(DueSoon) <==> 0 <= n <= 7)
      && (DueDateStatus(Some(IsoDate(d)), today) == Some(Normal) <==> n > 7)
  {
    DaysUntilSign(d, today);
    ParseIsoDateRoundTrip(d);
  }
}
