/**
 * src/features/dashboard/Dashboard.tsx: the month's approved income and
 * expenses, the surplus, and the household balance built from the first
 * record of each user.
 */
module Dashboard {

  import opened Wrappers
  import opened Types
  import opened Lists
  import opened DateUtils
  import opened BalanceSlice

  function IncomeAmount(i: Income): real { i.amount }

  function ExpenseAmount(e: Expense): real { e.amount }

  /** The incomes the dashboard counts: dated inside the range and approved. */
  function CountedIncome(r: DateRange): Income -> bool
  {
    (i: Income) => InRange(i.date, r) && i.status == Approved
  }

  /** The same test for expenses. */
  function CountedExpense(r: DateRange): Expense -> bool
  {
    (e: Expense) => InRange(e.date, r) && e.status == Approved
  }

  /** monthlyIncome (lines 44-46). */
  function MonthlyIncome(incomes: seq<Income>, r: DateRange): real
  {
    SumOf(Filter(incomes, CountedIncome(r)), IncomeAmount)
  }

  /** monthlyExpenses (lines 48-50). */
  function MonthlyExpenses(expenses: seq<Expense>, r: DateRange): real
  {
    SumOf(Filter(expenses, CountedExpense(r)), ExpenseAmount)
  }

  /** monthlySurplus (line 52). */
  function MonthlySurplus(incomes: seq<Income>, expenses: seq<Expense>, r: DateRange): real
  {
    MonthlyIncome(incomes, r) - MonthlyExpenses(expenses, r)
  }

  /**
   * The month's income, element by element: nothing for no incomes, and each
   * further income adds its amount exactly when it is approved and in range.
   */
  lemma MonthlyIncomeStep(incomes: seq<Income>, x: Income, r: DateRange)
    ensures MonthlyIncome([], r) == 0.0
    ensures MonthlyIncome(incomes + [x], r) ==
      MonthlyIncome(incomes, r) + (if InRange(x.date, r) && x.status == Approved then x.amount else 0.0)
  {
    FilterAppend(incomes, [x], CountedIncome(r));
    SumAppend(Filter(incomes, CountedIncome(r)), Filter([x], CountedIncome(r)), IncomeAmount);
    assert Filter([x], CountedIncome(r)) == Filter([x][..0], CountedIncome(r)) + (if CountedIncome(r)(x) then [x] else []);
  }

  /** The same characterisation of the month's expenses. */
  lemma MonthlyExpensesStep(expenses: seq<Expense>, x: Expense, r: DateRange)
    ensures MonthlyExpenses([], r) == 0.0
    ensures MonthlyExpenses(expenses + [x], r) ==
      MonthlyExpenses(expenses, r) + (if InRange(x.date, r) && x.status == Approved then x.amount else 0.0)
  {
    FilterAppend(expenses, [x], CountedExpense(r));
    SumAppend(Filter(expenses, CountedExpense(r)), Filter([x], CountedExpense(r)), ExpenseAmount);
    assert Filter([x], CountedExpense(r)) == Filter([x][..0], CountedExpense(r)) + (if CountedExpense(r)(x) then [x] else []);
  }

  /** With non-negative amounts the month's income lies between zero and the sum of all incomes. */
  lemma MonthlyIncomeBounds(incomes: seq<Income>, r: DateRange)
    requires forall j | 0 <= j < |incomes| :: incomes[j].amount >= 0.0
    ensures 0.0 <= MonthlyIncome(incomes, r) <= SumOf(incomes, IncomeAmount)
  {
    SumFilterBound(incomes, CountedIncome(r), IncomeAmount);
    var f := Filter(incomes, CountedIncome(r));
    SumNonNegative(f, IncomeAmount);
  }

  /** The surplus is negative when there is no counted income but a counted expense. */
  lemma SurplusNegativeWithoutIncome(e: Expense, r: DateRange)
    requires InRange(e.date, r) && e.status == Approved && e.amount > 0.0
    ensures MonthlySurplus([], [e], r) < 0.0
  {
    MonthlyExpensesStep([], e, r);
    assert [] + [e] == [e];
  }

  /** `(b?.cash || 0) + (b?.bank || 0) + (b?.setAside || 0)` for the first record of `user`. */
  function UserTotal(balances: seq<Balance>, user: UserRole): real
  {
    match Find(balances, BalanceUser, user)
    case None => 0.0
    case Some(b) => b.cash + b.bank + b.setAside
  }

  /** totalBalance (line 60). */
  function TotalBalance(balances: seq<Balance>): real
  {
    UserTotal(balances, Husband) + UserTotal(balances, Wife)
  }

  function BalanceTotal(b: Balance): real { b.total }

  /**
   * With one record per user and each record's total consistent, the
   * household total is the sum of the stored totals: no record is left out
   * and none is counted twice.
   */
  lemma TotalBalanceIsSumOfTotals(balances: seq<Balance>)
    requires UniqueKeys(balances, BalanceUser)
    requires forall j | 0 <= j < |balances| :: TotalConsistent(balances[j])
    ensures TotalBalance(balances) == SumOf(balances, BalanceTotal)
  {
    AtMostTwoRecords(balances);
    if |balances| == 1 {
      OneRecordTotal(balances);
    } else if |balances| == 2 {
      TwoRecordsTotal(balances);
    }
  }

  /** Two users, so at most two records with distinct users. */
  lemma AtMostTwoRecords(balances: seq<Balance>)
    requires UniqueKeys(balances, BalanceUser)
    ensures |balances| <= 2
  {
    assert |balances| >= 3 ==>
      BalanceUser(balances[0]) != BalanceUser(balances[1]) && BalanceUser(balances[0]) != BalanceUser(balances[2])
      && BalanceUser(balances[1]) != BalanceUser(balances[2]);
  }

  lemma OneRecordTotal(balances: seq<Balance>)
    requires |balances| == 1 && TotalConsistent(balances[0])
    ensures TotalBalance(balances) == SumOf(balances, BalanceTotal)
  {
    var b := balances[0];
    assert balances[..0] == [];
    if b.user == Husband {
      assert Find(balances, BalanceUser, Wife).None?;
    } else {
      assert Find(balances, BalanceUser, Husband).None?;
    }
  }

  lemma TwoRecordsTotal(balances: seq<Balance>)
    requires |balances| == 2 && UniqueKeys(balances, BalanceUser)
    requires TotalConsistent(balances[0]) && TotalConsistent(balances[1])
    ensures TotalBalance(balances) == SumOf(balances, BalanceTotal)
  {
    var a, b := balances[0], balances[1];
    assert BalanceUser(a) != BalanceUser(b);
    assert balances[..1] == [a] && [a][..0] == [];
    assert Find(balances, BalanceUser, a.user) == Some(a);
    assert Find(balances, BalanceUser, b.user) == Some(b) by {
      FindIndexChar(balances, BalanceUser, b.user, 1);
    }
    assert SumOf([a], BalanceTotal) == a.total;
    assert SumOf(balances, BalanceTotal) == SumOf([a], BalanceTotal) + b.total;
    assert TotalBalance(balances) == UserTotal(balances, a.user) + UserTotal(balances, b.user);
  }

  /** A missing record counts as zero and a present one is counted in full. */
  lemma UserTotalCases(balances: seq<Balance>, user: UserRole)
    ensures (forall j | 0 <= j < |balances| :: balances[j].user != user) ==> UserTotal(balances, user) == 0.0
    ensures forall j | 0 <= j < |balances| ::
      (balances[j].user == user && TotalConsistent(balances[j]) && UniqueKeys(balances, BalanceUser))
      ==> UserTotal(balances, user) == balances[j].total
  {
    forall j | 0 <= j < |balances| && balances[j].user == user && UniqueKeys(balances, BalanceUser)
      ensures Find(balances, BalanceUser, user) == Some(balances[j])
    {
      FindIndexChar(balances, BalanceUser, user, j);
    }
  }

  /** isInitialLoading (line 63). */
  function IsInitialLoading(balancesLoading: bool, balances: seq<Balance>): bool
  {
    balancesLoading && |balances| == 0
  }
}
