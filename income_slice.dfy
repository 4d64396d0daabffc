/** src/features/income/incomeSlice.ts: the list of income records. */
module IncomeSlice {

  import opened Wrappers
  import opened Types
  import opened Lists
  import opened Text

  function IncomeId(i: Income): string { i.id }

  class IncomeState {
    var incomes: seq<Income>
    var loading: bool
    var error: Option<string>

    predicate Valid()
      reads this
    {
      UniqueKeys(incomes, IncomeId)
    }

    constructor ()
      ensures incomes == [] && !loading && error == None
      ensures Valid()
    {
      incomes := [];
      loading := false;
      error := None;
    }

    method ClearError()
      modifies this
      ensures error == None && incomes == old(incomes) && loading == old(loading)
    {
      error := None;
    }

    /** fetchIncomes.pending: sets loading only. */
    method FetchPending()
      modifies this
      ensures loading && error == old(error) && incomes == old(incomes)
    {
      loading := true;
    }

    method FetchFulfilled(payload: seq<Income>)
      modifies this
      ensures !loading && incomes == payload && error == old(error)
    {
      loading := false;
      incomes := payload;
    }

    method FetchRejected(message: Option<string>)
      modifies this
      ensures !loading && error == Some(OrDefault(message, "Failed to fetch incomes"))
      ensures message.None? ==> error == Some("Failed to fetch incomes")
      ensures incomes == old(incomes)
    {
      loading := false;
      error := Some(OrDefault(message, "Failed to fetch incomes"));
    }

    /** createIncome.fulfilled: exactly one element more, at the end. */
    method CreateFulfilled(x: Income)
      modifies this
      ensures incomes == old(incomes) + [x]
      ensures |incomes| == |old(incomes)| + 1 && incomes[|incomes| - 1] == x
      ensures old(Valid()) && Find(old(incomes), IncomeId, x.id).None? ==> Valid()
      ensures loading == old(loading) && error == old(error)
    {
      AppendKeepsUnique(incomes, IncomeId, x);
      incomes := incomes + [x];
    }

    /** updateIncome.fulfilled: the first record with the id is replaced; otherwise no change. */
    method UpdateFulfilled(x: Income)
      modifies this
      ensures incomes == ReplaceFirst(old(incomes), IncomeId, x.id, x)
      ensures |incomes| == |old(incomes)|
      ensures forall j | 0 <= j < |incomes| ::
        incomes[j] == if j == FindIndex(old(incomes), IncomeId, x.id) then x else old(incomes)[j]
      ensures Find(old(incomes), IncomeId, x.id).None? ==> incomes == old(incomes)
      ensures old(Valid()) ==> Valid()
      ensures loading == old(loading) && error == old(error)
    {
      ReplaceFirstSpec(incomes, IncomeId, x.id, x);
      if Valid() {
        ReplaceFirstKeepsUnique(incomes, IncomeId, x);
      }
      var index := FindIndex(incomes, IncomeId, x.id);
      if index != -1 {
        incomes := incomes[index := x];
      }
    }

    /** deleteIncome.fulfilled: every record with the id goes; the rest keep their order. */
    method DeleteFulfilled(id: string)
      modifies this
      ensures incomes == RemoveKey(old(incomes), IncomeId, id)
      ensures forall x :: x in incomes <==> x in old(incomes) && x.id != id
      ensures old(Valid()) ==> Valid()
      ensures loading == old(loading) && error == old(error)
    {
      RemoveKeySpec(incomes, IncomeId, id);
      incomes := RemoveKey(incomes, IncomeId, id);
    }
  }
}
