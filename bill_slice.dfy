/** src/features/bills/billSlice.ts: all bills, and the upcoming ones the dashboard lists. */
module BillSlice {

  import opened Wrappers
  import opened Types
  import opened Lists
  import opened Text

  function BillId(b: Bill): string { b.id }

  /** Removing an id keeps exactly the records with another id, and keeps ids unique. */
  lemma RemoveBill(s: seq<Bill>, id: string, r: seq<Bill>)
    requires r == RemoveKey(s, BillId, id)
    ensures forall x :: x in r <==> x in s && x.id != id
    ensures UniqueKeys(s, BillId) ==> UniqueKeys(r, BillId)
  {
    RemoveKeySpec(s, BillId, id);
  }

  class BillState {
    var bills: seq<Bill>
    var upcomingBills: seq<Bill>
    var loading: bool
    var error: Option<string>

    predicate Valid()
      reads this
    {
      UniqueKeys(bills, BillId) && UniqueKeys(upcomingBills, BillId)
    }

    constructor ()
      ensures bills == [] && upcomingBills == [] && !loading && error == None
      ensures Valid()
    {
      bills := [];
      upcomingBills := [];
      loading := false;
      error := None;
    }

    method ClearError()
      modifies this
      ensures error == None && loading == old(loading)
      ensures bills == old(bills) && upcomingBills == old(upcomingBills)
    {
      error := None;
    }

    /** fetchBills.pending: sets loading only. */
    method FetchPending()
      modifies this
      ensures loading && error == old(error)
      ensures bills == old(bills) && upcomingBills == old(upcomingBills)
    {
      loading := true;
    }

    method FetchFulfilled(payload: seq<Bill>)
      modifies this
      ensures !loading && bills == payload && error == old(error)
      ensures upcomingBills == old(upcomingBills)
    {
      loading := false;
      bills := payload;
    }

    method FetchRejected(message: Option<string>)
      modifies this
      ensures !loading && error == Some(OrDefault(message, "Failed to fetch bills"))
      ensures message.None? ==> error == Some("Failed to fetch bills")
      ensures bills == old(bills) && upcomingBills == old(upcomingBills)
    {
      loading := false;
      error := Some(OrDefault(message, "Failed to fetch bills"));
    }

    /** fetchUpcomingBills.fulfilled: replaces only the upcoming list. */
    method UpcomingFulfilled(payload: seq<Bill>)
      modifies this
      ensures upcomingBills == payload
      ensures bills == old(bills) && loading == old(loading) && error == old(error)
    {
      upcomingBills := payload;
    }

    /** createBill.fulfilled: appended to `bills` only. */
    method CreateFulfilled(b: Bill)
      modifies this
      ensures bills == old(bills) + [b]
      ensures upcomingBills == old(upcomingBills)
      ensures old(Valid()) && Find(old(bills), BillId, b.id).None? ==> Valid()
      ensures loading == old(loading) && error == old(error)
    {
      AppendKeepsUnique(bills, BillId, b);
      bills := bills + [b];
    }

    /** updateBill.fulfilled: replaces the first match in `bills` only. */
    method UpdateFulfilled(b: Bill)
      modifies this
      ensures bills == ReplaceFirst(old(bills), BillId, b.id, b)
      ensures |bills| == |old(bills)|
      ensures forall j | 0 <= j < |bills| ::
        bills[j] == if j == FindIndex(old(bills), BillId, b.id) then b else old(bills)[j]
      ensures Find(old(bills), BillId, b.id).None? ==> bills == old(bills)
      ensures upcomingBills == old(upcomingBills)
      ensures old(Valid()) ==> Valid()
      ensures loading == old(loading) && error == old(error)
    {
      ReplaceFirstSpec(bills, BillId, b.id, b);
      if Valid() {
        ReplaceFirstKeepsUnique(bills, BillId, b);
      }
      var index := FindIndex(bills, BillId, b.id);
      if index != -1 {
        bills := bills[index := b];
      }
    }

    /** markBillAsPaid.fulfilled: the paid bill replaces the old one and leaves the upcoming list. */
    method MarkPaidFulfilled(b: Bill)
      modifies this
      ensures bills == ReplaceFirst(old(bills), BillId, b.id, b)
      ensures |bills| == |old(bills)|
      ensures upcomingBills == RemoveKey(old(upcomingBills), BillId, b.id)
      ensures forall x :: x in upcomingBills <==> x in old(upcomingBills) && x.id != b.id
      ensures old(Valid()) ==> Valid()
      ensures loading == old(loading) && error == old(error)
    {
      UpdateFulfilled(b);
      RemoveKeySpec(upcomingBills, BillId, b.id);
      upcomingBills := RemoveKey(upcomingBills, BillId, b.id);
    }

    /** deleteBill.fulfilled: the id leaves both lists. */
    method DeleteFulfilled(id: string)
      modifies this
      ensures bills == RemoveKey(old(bills), BillId, id)
      ensures upcomingBills == RemoveKey(old(upcomingBills), BillId, id)
      ensures forall x :: x in bills <==> x in old(bills) && x.id != id
      ensures forall x :: x in upcomingBills <==> x in old(upcomingBills) && x.id != id
      ensures old(Valid()) ==> Valid()
      ensures loading == old(loading) && error == old(error)
    {
      var first, second := RemoveKey(bills, BillId, id), RemoveKey(upcomingBills, BillId, id);
      RemoveBill(bills, id, first);
      RemoveBill(upcomingBills, id, second);
      bills, upcomingBills := first, second;
    }
  }
}
