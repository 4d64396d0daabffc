/** src/features/reserved/reservedSlice.ts: money set aside for a purpose. */
module ReservedSlice {

  import opened Wrappers
  import opened Types
  import opened Lists
  import opened Text

  function ReservedId(r: Reserved): string { r.id }

  class ReservedState {
    var items: seq<Reserved>
    var loading: bool
    var error: Option<string>

    predicate Valid()
      reads this
    {
      UniqueKeys(items, ReservedId)
    }

    constructor ()
      ensures items == [] && !loading && error == None
      ensures Valid()
    {
      items := [];
      loading := false;
      error := None;
    }

    method ClearError()
      modifies this
      ensures error == None && items == old(items) && loading == old(loading)
    {
      error := None;
    }

    method FetchPending()
      modifies this
      ensures loading && error == None && items == old(items)
    {
      loading := true;
      error := None;
    }

    method FetchFulfilled(payload: seq<Reserved>)
      modifies this
      ensures !loading && items == payload && error == old(error)
    {
      loading := false;
      items := payload;
    }

    method FetchRejected(message: Option<string>)
      modifies this
      ensures !loading && error == Some(OrDefault(message, "Failed to fetch reserved items"))
      ensures message.None? ==> error == Some("Failed to fetch reserved items")
      ensures items == old(items)
    {
      loading := false;
      error := Some(OrDefault(message, "Failed to fetch reserved items"));
    }

    /** createReservedItem.fulfilled: `unshift`. */
    method CreateFulfilled(r: Reserved)
      modifies this
      ensures items == [r] + old(items)
      ensures items[0] == r && items[1..] == old(items)
      ensures old(Valid()) && Find(old(items), ReservedId, r.id).None? ==> Valid()
      ensures loading == old(loading) && error == old(error)
    {
      PrependKeepsUnique(items, ReservedId, r);
      items := [r] + items;
    }

    /** Shared by updateReservedItem and the partial case of depositBack: replace the first item with `id`. */
    method ReplaceById(id: string, r: Reserved)
      modifies this
      ensures items == ReplaceFirst(old(items), ReservedId, id, r)
      ensures |items| == |old(items)|
      ensures forall j | 0 <= j < |items| ::
        items[j] == if j == FindIndex(old(items), ReservedId, id) then r else old(items)[j]
      ensures Find(old(items), ReservedId, id).None? ==> items == old(items)
      ensures r.id == id && old(Valid()) ==> Valid()
      ensures loading == old(loading) && error == old(error)
    {
      ReplaceFirstSpec(items, ReservedId, id, r);
      if r.id == id && Valid() {
        ReplaceFirstKeepsUnique(items, ReservedId, r);
      }
      var index := FindIndex(items, ReservedId, id);
      if index != -1 {
        items := items[index := r];
      }
    }

    /** updateReservedItem.fulfilled: replaces the item with the returned item's id; the length never changes. */
    method UpdateFulfilled(r: Reserved)
      modifies this
      ensures items == ReplaceFirst(old(items), ReservedId, r.id, r)
      ensures |items| == |old(items)|
      ensures old(Valid()) ==> Valid()
      ensures loading == old(loading) && error == old(error)
    {
      ReplaceById(r.id, r);
    }

    /** deleteReservedItem.fulfilled. */
    method DeleteFulfilled(id: string)
      modifies this
      ensures items == RemoveKey(old(items), ReservedId, id)
      ensures forall x :: x in items <==> x in old(items) && x.id != id
      ensures old(Valid()) ==> Valid()
      ensures loading == old(loading) && error == old(error)
    {
      RemoveKeySpec(items, ReservedId, id);
      items := RemoveKey(items, ReservedId, id);
    }

    /**
     * depositBack.fulfilled: a null result (everything deposited back) deletes
     * the item `id`; otherwise the returned item replaces the one with `id`.
     */
    method DepositBackFulfilled(id: string, result: Option<Reserved>)
      modifies this
      ensures result.None? ==> items == RemoveKey(old(items), ReservedId, id)
      ensures result.None? ==> forall x :: x in items <==> x in old(items) && x.id != id
      ensures result.Some? ==> items == ReplaceFirst(old(items), ReservedId, id, result.value)
      ensures result.Some? ==> |items| == |old(items)|
      ensures (result.None? || result.value.id == id) && old(Valid()) ==> Valid()
      ensures loading == old(loading) && error == old(error)
    {
      if result.None? {
        DeleteFulfilled(id);
      } else {
        ReplaceById(id, result.value);
      }
    }
  }
}
