/**
 * src/features/budget/budgetSlice.ts: planned amounts per (month, category).
 * The current month, the clock and the `Date.now()` id are parameters.
 */
module BudgetSlice {

  import opened Wrappers
  import opened Types
  import opened Lists

  /** A budget is identified by its month and category. */
  function BudgetKey(b: Budget): (string, ExpenseCategory) { (b.month, b.category) }

  class BudgetState {
    var budgets: seq<Budget>
    var loading: bool
    var error: Option<string>

    /** At most one budget per month and category. */
    predicate Valid()
      reads this
    {
      UniqueKeys(budgets, BudgetKey)
    }

    /** initialState: three demonstration budgets for the current month. */
    constructor (currentMonth: string, now: string)
      ensures budgets == [
        Budget("1", currentMonth, Groceries, 1500.0, now, now),
        Budget("2", currentMonth, DiningOut, 500.0, now, now),
        Budget("3", currentMonth, Fuel, 400.0, now, now)]
      ensures !loading && error == None
      ensures Valid()
    {
      budgets := [
        Budget("1", currentMonth, Groceries, 1500.0, now, now),
        Budget("2", currentMonth, DiningOut, 500.0, now, now),
        Budget("3", currentMonth, Fuel, 400.0, now, now)];
      loading := false;
      error := None;
    }

    method ClearError()
      modifies this
      ensures error == None && budgets == old(budgets) && loading == old(loading)
    {
      error := None;
    }

    /**
     * setBudget: the first budget of that month and category gets the new
     * amount and timestamp; with none, a new budget is appended.
     */
    method SetBudget(month: string, category: ExpenseCategory, amount: real, newId: string, now: string)
      modifies this
      ensures var i := FindIndex(old(budgets), BudgetKey, (month, category));
        if i != -1 then
          budgets == old(budgets)[i := old(budgets)[i].(plannedAmount := amount, updatedAt := now)]
        else
          budgets == old(budgets) + [Budget(newId, month, category, amount, now, now)]
      ensures Find(budgets, BudgetKey, (month, category)).Some?
      ensures Find(budgets, BudgetKey, (month, category)).value.plannedAmount == amount
      ensures old(Valid()) ==> Valid()
      ensures loading == old(loading) && error == old(error)
    {
      var existing := FindIndex(budgets, BudgetKey, (month, category));
      var b: Budget;
      if existing != -1 {
        b := budgets[existing];
        b := b.(plannedAmount := amount, updatedAt := now);
      } else {
        b := Budget(newId, month, category, amount, now, now);
      }
      assert BudgetKey(b) == (month, category);
      UpsertSpec(budgets, BudgetKey, b);
      budgets := Upsert(budgets, BudgetKey, b);
    }
  }
}
