/**
 * src/features/expenses/expenseSlice.ts: all expenses, and separately the
 * ones awaiting approval. Create, delete and approve keep the two lists in step.
 */
module ExpenseSlice {

  import opened Wrappers
  import opened Types
  import opened Lists
  import opened Text

  function ExpenseId(e: Expense): string { e.id }

  /** Removing an id keeps exactly the records with another id, and keeps ids unique. */
  lemma RemoveExpense(s: seq<Expense>, id: string, r: seq<Expense>)
    requires r == RemoveKey(s, ExpenseId, id)
    ensures forall x :: x in r <==> x in s && x.id != id
    ensures UniqueKeys(s, ExpenseId) ==> UniqueKeys(r, ExpenseId)
  {
    RemoveKeySpec(s, ExpenseId, id);
  }

  class ExpenseState {
    var expenses: seq<Expense>
    var pendingExpenses: seq<Expense>
    var loading: bool
    var error: Option<string>

    /** Ids are unique in both lists. */
    predicate Valid()
      reads this
    {
      UniqueKeys(expenses, ExpenseId) && UniqueKeys(pendingExpenses, ExpenseId)
    }

    constructor ()
      ensures expenses == [] && pendingExpenses == [] && !loading && error == None
      ensures Valid()
    {
      expenses := [];
      pendingExpenses := [];
      loading := false;
      error := None;
    }

    method ClearError()
      modifies this
      ensures error == None && loading == old(loading)
      ensures expenses == old(expenses) && pendingExpenses == old(pendingExpenses)
    {
      error := None;
    }

    /** fetchExpenses.pending: sets loading only. */
    method FetchPending()
      modifies this
      ensures loading && error == old(error)
      ensures expenses == old(expenses) && pendingExpenses == old(pendingExpenses)
    {
      loading := true;
    }

    method FetchFulfilled(payload: seq<Expense>)
      modifies this
      ensures !loading && expenses == payload && error == old(error)
      ensures pendingExpenses == old(pendingExpenses)
    {
      loading := false;
      expenses := payload;
    }

    method FetchRejected(message: Option<string>)
      modifies this
      ensures !loading && error == Some(OrDefault(message, "Failed to fetch expenses"))
      ensures message.None? ==> error == Some("Failed to fetch expenses")
      ensures expenses == old(expenses) && pendingExpenses == old(pendingExpenses)
    {
      loading := false;
      error := Some(OrDefault(message, "Failed to fetch expenses"));
    }

    /** fetchPendingExpenses.fulfilled. */
    method FetchPendingFulfilled(payload: seq<Expense>)
      modifies this
      ensures pendingExpenses == payload
      ensures expenses == old(expenses) && loading == old(loading) && error == old(error)
    {
      pendingExpenses := payload;
    }

    /** createExpense.fulfilled: appended to all expenses, and to the pending list exactly when it is pending. */
    method CreateFulfilled(e: Expense)
      modifies this
      ensures expenses == old(expenses) + [e]
      ensures pendingExpenses == old(pendingExpenses) + (if e.status == Pending then [e] else [])
      ensures e in pendingExpenses <==> e in old(pendingExpenses) || e.status == Pending
      ensures (old(Valid()) && Find(old(expenses), ExpenseId, e.id).None?
        && Find(old(pendingExpenses), ExpenseId, e.id).None?) ==> Valid()
      ensures loading == old(loading) && error == old(error)
    {
      AppendKeepsUnique(expenses, ExpenseId, e);
      AppendKeepsUnique(pendingExpenses, ExpenseId, e);
      expenses := expenses + [e];
      if e.status == Pending {
        pendingExpenses := pendingExpenses + [e];
      }
    }

    /** updateExpense.fulfilled: replaces the first match in `expenses`; the pending list is not touched. */
    method UpdateFulfilled(e: Expense)
      modifies this
      ensures expenses == ReplaceFirst(old(expenses), ExpenseId, e.id, e)
      ensures |expenses| == |old(expenses)|
      ensures forall j | 0 <= j < |expenses| ::
        expenses[j] == if j == FindIndex(old(expenses), ExpenseId, e.id) then e else old(expenses)[j]
      ensures Find(old(expenses), ExpenseId, e.id).None? ==> expenses == old(expenses)
      ensures pendingExpenses == old(pendingExpenses)
      ensures old(Valid()) ==> Valid()
      ensures loading == old(loading) && error == old(error)
    {
      ReplaceFirstSpec(expenses, ExpenseId, e.id, e);
      if Valid() {
        ReplaceFirstKeepsUnique(expenses, ExpenseId, e);
      }
      var index := FindIndex(expenses, ExpenseId, e.id);
      if index != -1 {
        expenses := expenses[index := e];
      }
    }

    /** deleteExpense.fulfilled: the id leaves both lists. */
    method DeleteFulfilled(id: string)
      modifies this
      ensures expenses == RemoveKey(old(expenses), ExpenseId, id)
      ensures pendingExpenses == RemoveKey(old(pendingExpenses), ExpenseId, id)
      ensures forall x :: x in expenses <==> x in old(expenses) && x.id != id
      ensures forall x :: x in pendingExpenses <==> x in old(pendingExpenses) && x.id != id
      ensures old(Valid()) ==> Valid()
      ensures loading == old(loading) && error == old(error)
    {
      var first, second := RemoveKey(expenses, ExpenseId, id), RemoveKey(pendingExpenses, ExpenseId, id);
      RemoveExpense(expenses, id, first);
      RemoveExpense(pendingExpenses, id, second);
      expenses, pendingExpenses := first, second;
    }

    /** approveExpense.fulfilled: the approved record replaces the old one and leaves the pending list. */
    method ApproveFulfilled(e: Expense)
      modifies this
      ensures expenses == ReplaceFirst(old(expenses), ExpenseId, e.id, e)
      ensures |expenses| == |old(expenses)|
      ensures forall j | 0 <= j < |expenses| ::
        expenses[j] == if j == FindIndex(old(expenses), ExpenseId, e.id) then e else old(expenses)[j]
      ensures pendingExpenses == RemoveKey(old(pendingExpenses), ExpenseId, e.id)
      ensures forall x :: x in pendingExpenses <==> x in old(pendingExpenses) && x.id != e.id
      ensures old(Valid()) ==> Valid()
      ensures loading == old(loading) && error == old(error)
    {
      UpdateFulfilled(e);
      RemoveKeySpec(pendingExpenses, ExpenseId, e.id);
      pendingExpenses := RemoveKey(pendingExpenses, ExpenseId, e.id);
    }
  }
}
