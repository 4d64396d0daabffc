/**
 * src/features/tabung/TabungPage.tsx: the user filter, the saved total, the
 * active and completed counts, and the bank balance offered to the save form.
 */
module TabungPage {

  import opened Wrappers
  import opened Types
  import opened Lists
  import opened BalanceSlice

  function SavedAmount(t: Tabung): real { t.savedAmount }

  function TabungOfUser(u: UserRole): Tabung -> bool
  {
    (t: Tabung) => t.user == u
  }

  function IsActive(t: Tabung): bool { t.status == Active }

  function IsCompleted(t: Tabung): bool { t.status == Completed }

  /** filteredItems (lines 51-53). */
  function FilteredTabung(items: seq<Tabung>, userFilter: UserFilter): seq<Tabung>
  {
    if userFilter == AllUsers then items else Filter(items, TabungOfUser(userFilter.role))
  }

  /** totalSaved (line 56). */
  function TotalSaved(filtered: seq<Tabung>): real
  {
    SumOf(filtered, SavedAmount)
  }

  /** activeTabung (line 57). */
  function ActiveCount(filtered: seq<Tabung>): nat
  {
    |Filter(filtered, IsActive)|
  }

  /** completedTabung (line 58). */
  function CompletedCount(filtered: seq<Tabung>): nat
  {
    |Filter(filtered, IsCompleted)|
  }

  /** bankBalance (lines 61-62): the acting user's first balance record, or 0. */
  function BankBalance(balances: seq<Balance>, currentUser: Option<User>): real
  {
    match Find(balances, BalanceUser, ActingRole(currentUser))
    case None => 0.0
    case Some(b) => b.bank
  }

  /** 'all' keeps the list as it is; a user keeps exactly that user's goals. */
  lemma FilteredTabungSpec(items: seq<Tabung>, userFilter: UserFilter)
    ensures userFilter == AllUsers ==> FilteredTabung(items, userFilter) == items
    ensures forall t :: t in FilteredTabung(items, userFilter) <==>
      t in items && (userFilter == AllUsers || t.user == userFilter.role)
  {
    if userFilter.OnlyUser? {
      forall t ensures t in FilteredTabung(items, userFilter) <==> t in items && t.user == userFilter.role {
        FilterMember(items, TabungOfUser(userFilter.role), t);
      }
    }
  }

  /**
   * Every goal is active or completed, so the two counts add up to the
   * filtered length; and the household's saved total is the husband's plus
   * the wife's.
   */
  lemma TabungStats(items: seq<Tabung>, userFilter: UserFilter)
    ensures ActiveCount(FilteredTabung(items, userFilter)) + CompletedCount(FilteredTabung(items, userFilter))
      == |FilteredTabung(items, userFilter)|
    ensures TotalSaved(FilteredTabung(items, AllUsers)) ==
      TotalSaved(FilteredTabung(items, OnlyUser(Husband))) + TotalSaved(FilteredTabung(items, OnlyUser(Wife)))
  {
    FilterPartition(FilteredTabung(items, userFilter), IsActive, IsCompleted);
    SumPartition(items, TabungOfUser(Husband), TabungOfUser(Wife), SavedAmount);
  }

  /**
   * Signed out, the husband's balance is used; a role without a record gives
   * 0; with one record per user the balance is that user's bank figure.
   */
  lemma BankBalanceSpec(balances: seq<Balance>, currentUser: Option<User>)
    ensures currentUser.None? ==> BankBalance(balances, currentUser) == BankBalance(balances, Some(User("", "", Husband)))
    ensures (forall j | 0 <= j < |balances| :: balances[j].user != ActingRole(currentUser)) ==>
      BankBalance(balances, currentUser) == 0.0
    ensures forall j | 0 <= j < |balances| && UniqueKeys(balances, BalanceUser) && balances[j].user == ActingRole(currentUser) ::
      BankBalance(balances, currentUser) == balances[j].bank
  {
    forall j | 0 <= j < |balances| && UniqueKeys(balances, BalanceUser) && balances[j].user == ActingRole(currentUser)
      ensures Find(balances, BalanceUser, ActingRole(currentUser)) == Some(balances[j])
    {
      FindIndexChar(balances, BalanceUser, ActingRole(currentUser), j);
    }
  }
}
