/**
 * src/features/reserved/ReservedPage.tsx: the user filter and the figures
 * above the list: the reserved total, the item count and the items due
 * within a week.
 */
module ReservedPage {

  import opened Wrappers
  import opened Types
  import opened Lists
  import opened Calendar
  import opened DateUtils
  import opened ReservedList

  function ReservedAmount(r: Reserved): real { r.amount }

  function OfUser(u: UserRole): Reserved -> bool
  {
    (r: Reserved) => r.user == u
  }

  /** filteredItems (lines 37-39). */
  function FilteredItems(items: seq<Reserved>, userFilter: UserFilter): seq<Reserved>
  {
    if userFilter == AllUsers then items else Filter(items, OfUser(userFilter.role))
  }

  /** totalReserved (line 42). */
  function TotalReserved(filtered: seq<Reserved>): real
  {
    SumOf(filtered, ReservedAmount)
  }

  /** totalItems (line 43). */
  function TotalItems(filtered: seq<Reserved>): nat
  {
    |filtered|
  }

  /** The test of upcomingDue: a due date, and a day count from 0 to 7 (NaN fails both comparisons). */
  function DueWithinWeek(today: Date): Reserved -> bool
    requires ValidDate(today)
  {
    (r: Reserved) =>
      r.dueDate.Some? && r.dueDate.value != "" &&
      match DaysUntil(r.dueDate.value, today)
      case None => false
      case Some(n) => 0 <= n <= 7
  }

  /** upcomingDue (lines 46-50). */
  function UpcomingDue(filtered: seq<Reserved>, today: Date): nat
    requires ValidDate(today)
  {
    |Filter(filtered, DueWithinWeek(today))|
  }

  /** 'all' keeps the list as it is; a user keeps exactly that user's items, in order. */
  lemma FilteredItemsSpec(items: seq<Reserved>, userFilter: UserFilter)
    ensures userFilter == AllUsers ==> FilteredItems(items, userFilter) == items
    ensures forall r :: r in FilteredItems(items, userFilter) <==>
      r in items && (userFilter == AllUsers || r.user == userFilter.role)
  {
    if userFilter.OnlyUser? {
      forall r ensures r in FilteredItems(items, userFilter) <==> r in items && r.user == userFilter.role {
        FilterMember(items, OfUser(userFilter.role), r);
      }
    }
  }

  /** The household total is the husband's total plus the wife's. */
  lemma TotalReservedByUser(items: seq<Reserved>)
    ensures TotalReserved(FilteredItems(items, AllUsers)) ==
      TotalReserved(FilteredItems(items, OnlyUser(Husband))) + TotalReserved(FilteredItems(items, OnlyUser(Wife)))
    ensures TotalItems(FilteredItems(items, AllUsers)) ==
      TotalItems(FilteredItems(items, OnlyUser(Husband))) + TotalItems(FilteredItems(items, OnlyUser(Wife)))
  {
    SumPartition(items, OfUser(Husband), OfUser(Wife), ReservedAmount);
    FilterPartition(items, OfUser(Husband), OfUser(Wife));
  }

  /**
   * An item counts as upcoming exactly when the list would mark it due soon:
   * items without a due date never count, and the count never exceeds the
   * number of items.
   */
  lemma UpcomingDueSpec(filtered: seq<Reserved>, today: Date)
    requires ValidDate(today)
    ensures UpcomingDue(filtered, today) ==
      |Filter(filtered, (r: Reserved) => DueDateStatus(r.dueDate, today) == Some(DueSoon))|
    ensures UpcomingDue(filtered, today) <= TotalItems(filtered)
    ensures (forall j | 0 <= j < |filtered| :: filtered[j].dueDate.None?) ==> UpcomingDue(filtered, today) == 0
  {
    FilterExt(filtered, DueWithinWeek(today), (r: Reserved) => DueDateStatus(r.dueDate, today) == Some(DueSoon));
    var f := Filter(filtered, DueWithinWeek(today));
    if f != [] {
      assert f[0] in filtered && DueWithinWeek(today)(f[0]);
    }
  }
}
