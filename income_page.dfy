/**
 * src/features/income/IncomePage.tsx: the month's income total, the month
 * picker's options, source labels, and the two-click delete confirmation.
 */
module IncomePage {

  import opened Wrappers
  import opened Types
  import opened Lists
  import opened Text
  import opened Calendar
  import opened DateUtils
  import opened Dashboard

  /** The filter of totalIncome: the date alone, whatever the status. */
  function IncomeInRange(r: DateRange): Income -> bool
  {
    (i: Income) => InRange(i.date, r)
  }

  function IncomeApproved(i: Income): bool { i.status == Approved }

  function IncomeNotApproved(i: Income): bool { i.status != Approved }

  /** totalIncome (lines 33-35). */
  function TotalIncome(incomes: seq<Income>, r: DateRange): real
  {
    SumOf(Filter(incomes, IncomeInRange(r)), IncomeAmount)
  }

  /**
   * This page's total counts pending and rejected incomes too: it is the
   * dashboard's approved total plus the in-range incomes that are not
   * approved, so with non-negative amounts it is never the smaller.
   */
  lemma TotalIncomeCountsEveryStatus(incomes: seq<Income>, r: DateRange)
    ensures TotalIncome(incomes, r) ==
      MonthlyIncome(incomes, r) + SumOf(Filter(Filter(incomes, IncomeInRange(r)), IncomeNotApproved), IncomeAmount)
    ensures (forall j | 0 <= j < |incomes| :: incomes[j].amount >= 0.0) ==>
      MonthlyIncome(incomes, r) <= TotalIncome(incomes, r)
  {
    var inRange := Filter(incomes, IncomeInRange(r));
    FilterConj(incomes, IncomeInRange(r), IncomeApproved, CountedIncome(r));
    SumPartition(inRange, IncomeApproved, IncomeNotApproved, IncomeAmount);
    if forall j | 0 <= j < |incomes| :: incomes[j].amount >= 0.0 {
      var rest := Filter(inRange, IncomeNotApproved);
      forall j | 0 <= j < |rest| ensures rest[j].amount >= 0.0 {
        assert rest[j] in incomes;
      }
      SumNonNegative(rest, IncomeAmount);
    }
  }

  // ---------------------------------------------------------------------
  // Month picker

  datatype MonthOption = MonthOption(value: string, name: string)

  /** The i-th option: the calendar month i months before today's. */
  function MonthOptionAt(today: Date, i: int): MonthOption
    requires 1 <= today.month <= 12 && today.year >= 1 && 0 <= i < 12
  {
    var ym := MonthsBefore(YearMonth(today.year, today.month), i);
    MonthOption(FormatYearMonth(ym), FinancialMonthName(ym))
  }

  /** generateMonthOptions (lines 73-85). */
  method GenerateMonthOptions(today: Date) returns (options: seq<MonthOption>)
    requires ValidDate(today) && today.year >= 1
    ensures |options| == 12
    ensures forall i | 0 <= i < 12 :: options[i] == MonthOptionAt(today, i)
    ensures options[0].value == FormatYearMonth(YearMonth(today.year, today.month))
    ensures forall i, j | 0 <= i < j < 12 :: options[i].value != options[j].value
  {
    options := [];
    for i := 0 to 12
      invariant |options| == i
      invariant forall k | 0 <= k < i :: options[k] == MonthOptionAt(today, k)
    {
      var date := MonthsBefore(YearMonth(today.year, today.month), i);
      var yearMonth := NatToString(date.year) + "-" + PadStart(NatToString(date.month), 2, '0');
      var name := FinancialMonthName(date);
      options := options + [MonthOption(yearMonth, name)];
    }
    forall i, j | 0 <= i < j < 12 ensures options[i].value != options[j].value {
      MonthOptionsDistinct(today, i, j);
    }
    assert MonthsBefore(YearMonth(today.year, today.month), 0) == YearMonth(today.year, today.month);
  }

  /** Different positions give different months. */
  lemma MonthOptionsDistinct(today: Date, i: int, j: int)
    requires 1 <= today.month <= 12 && today.year >= 1 && 0 <= i < j < 12
    ensures MonthOptionAt(today, i).value != MonthOptionAt(today, j).value
  {
    var cur := YearMonth(today.year, today.month);
    if MonthOptionAt(today, i).value == MonthOptionAt(today, j).value {
      FormatYearMonthInjective(MonthsBefore(cur, i), MonthsBefore(cur, j));
    }
  }

  // ---------------------------------------------------------------------
  // Labels

  const SourceLabels: map<string, string> :=
    map["salary" := "Salary", "bonus" := "Bonus", "reimbursement" := "Reimbursement", "other" := "Other"]

  /** getSourceLabel (lines 87-95): `labels[source] || source`. */
  function GetSourceLabel(source: string): (r: string)
    ensures source in SourceLabels ==> r == SourceLabels[source]
    ensures source !in SourceLabels ==> r == source
  {
    if source in SourceLabels && SourceLabels[source] != "" then SourceLabels[source] else source
  }

  /** The four known sources get their labels. */
  lemma SourceLabelsKnown()
    ensures GetSourceLabel("salary") == "Salary" && GetSourceLabel("bonus") == "Bonus"
    ensures GetSourceLabel("reimbursement") == "Reimbursement" && GetSourceLabel("other") == "Other"
    ensures GetSourceLabel("freelance") == "freelance"
  {
  }

  // ---------------------------------------------------------------------
  // Delete confirmation

  /** The `deleteConfirm` state: the id armed for deletion, if any. */
  class DeleteConfirm {
    var armed: Option<string>

    constructor ()
      ensures armed.None?
    {
      armed := None;
    }

    /**
     * handleDeleteIncome (lines 51-65). A click on the armed id dispatches
     * the delete, and disarms only when it succeeds; a click on any other id
     * arms that one and deletes nothing.
     */
    method Click(id: string, deleteSucceeds: bool) returns (deleteDispatched: bool)
      modifies this
      ensures deleteDispatched <==> old(armed) == Some(id)
      ensures old(armed) == Some(id) ==> armed == (if deleteSucceeds then None else Some(id))
      ensures old(armed) != Some(id) ==> armed == Some(id)
    {
      if armed == Some(id) {
        deleteDispatched := true;
        if deleteSucceeds {
          armed := None;
        }
      } else {
        deleteDispatched := false;
        armed := Some(id);
      }
    }

    /** The three-second timer that disarms the confirmation. */
    method TimerExpired()
      modifies this
      ensures armed.None?
    {
      armed := None;
    }
  }
}
