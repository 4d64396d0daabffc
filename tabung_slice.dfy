/**
 * src/features/tabung/tabungSlice.ts: the savings-pot ("tabung") reducers.
 * The Redux state is a `TabungState` object; each reducer case is a method
 * that changes the draft in place, as Immer lets the source do.
 */
module TabungSlice {

  import opened Wrappers
  import opened Types
  import opened Lists
  import opened Text

  function TabungId(t: Tabung): string { t.id }

  /** Replacing by id keeps the length and changes only the first pot with that id, keeping ids unique. */
  lemma ReplaceTabung(s: seq<Tabung>, t: Tabung, r: seq<Tabung>)
    requires r == ReplaceFirst(s, TabungId, t.id, t)
    ensures |r| == |s|
    ensures forall j | 0 <= j < |r| :: r[j] == if j == FindIndex(s, TabungId, t.id) then t else s[j]
    ensures Find(s, TabungId, t.id).None? ==> r == s
    ensures UniqueKeys(s, TabungId) ==> UniqueKeys(r, TabungId)
  {
    ReplaceFirstSpec(s, TabungId, t.id, t);
    assert TabungId(t) == t.id;
    if UniqueKeys(s, TabungId) {
      ReplaceFirstKeepsUnique(s, TabungId, t);
    }
  }

  class TabungState {
    var items: seq<Tabung>
    var transactions: map<string, seq<TabungTransaction>>
    var loading: bool
    var error: Option<string>

    /** The ids of the pots are unique. */
    predicate Valid()
      reads this
    {
      UniqueKeys(items, TabungId)
    }

    /** initialState: no pots, no transactions, idle, no error. */
    constructor ()
      ensures items == [] && transactions == map[] && !loading && error == None
      ensures Valid()
    {
      items := [];
      transactions := map[];
      loading := false;
      error := None;
    }

    method ClearError()
      modifies this
      ensures error == None
      ensures items == old(items) && transactions == old(transactions) && loading == old(loading)
    {
      error := None;
    }

    /** fetchTabung.pending. */
    method FetchPending()
      modifies this
      ensures loading && error == None
      ensures items == old(items) && transactions == old(transactions)
    {
      loading := true;
      error := None;
    }

    /** fetchTabung.fulfilled: the list is replaced wholesale. */
    method FetchFulfilled(payload: seq<Tabung>)
      modifies this
      ensures !loading && items == payload
      ensures transactions == old(transactions) && error == old(error)
    {
      loading := false;
      items := payload;
    }

    /** fetchTabung.rejected: the message, or the slice's default text. */
    method FetchRejected(message: Option<string>)
      modifies this
      ensures !loading && error == Some(OrDefault(message, "Failed to fetch tabung"))
      ensures message.None? ==> error == Some("Failed to fetch tabung")
      ensures items == old(items) && transactions == old(transactions)
    {
      loading := false;
      error := Some(OrDefault(message, "Failed to fetch tabung"));
    }

    /** fetchTabungById.fulfilled: replace the pot with the same id, or append it. */
    method FetchByIdFulfilled(t: Tabung)
      modifies this
      ensures items == Upsert(old(items), TabungId, t)
      ensures Find(items, TabungId, t.id) == Some(t)
      ensures |old(items)| <= |items| <= |old(items)| + 1
      ensures old(Valid()) ==> Valid()
      ensures transactions == old(transactions) && loading == old(loading) && error == old(error)
    {
      UpsertSpec(items, TabungId, t);
      var index := FindIndex(items, TabungId, t.id);
      if index != -1 {
        items := items[index := t];
      } else {
        items := items + [t];
      }
    }

    /** createTabung.fulfilled: `unshift`, the new pot first and the old ones after it. */
    method CreateFulfilled(t: Tabung)
      modifies this
      ensures items == [t] + old(items)
      ensures items[0] == t && items[1..] == old(items)
      ensures old(Valid()) && Find(old(items), TabungId, t.id).None? ==> Valid()
      ensures transactions == old(transactions) && loading == old(loading) && error == old(error)
    {
      PrependKeepsUnique(items, TabungId, t);
      items := [t] + items;
    }

    /**
     * updateTabung, saveToTabung and withdrawFromTabung (all fulfilled): the
     * first pot with the returned pot's id is replaced; without one nothing changes.
     */
    method ReplaceFulfilled(t: Tabung)
      modifies this
      ensures items == ReplaceFirst(old(items), TabungId, t.id, t)
      ensures |items| == |old(items)|
      ensures forall j | 0 <= j < |items| ::
        items[j] == if j == FindIndex(old(items), TabungId, t.id) then t else old(items)[j]
      ensures Find(old(items), TabungId, t.id).None? ==> items == old(items)
      ensures old(Valid()) ==> Valid()
      ensures transactions == old(transactions) && loading == old(loading) && error == old(error)
    {
      var r := ReplaceFirst(items, TabungId, t.id, t);
      ReplaceTabung(items, t, r);
      items := r;
    }

    /** deleteTabung.fulfilled: every pot with the id goes, and so does its transactions entry. */
    method DeleteFulfilled(id: string)
      modifies this
      ensures items == RemoveKey(old(items), TabungId, id)
      ensures forall x :: x in items <==> x in old(items) && x.id != id
      ensures transactions == old(transactions) - {id}
      ensures id !in transactions
      ensures forall k | k != id :: k in transactions <==> k in old(transactions)
      ensures forall k | k in transactions :: transactions[k] == old(transactions)[k]
      ensures old(Valid()) ==> Valid()
      ensures loading == old(loading) && error == old(error)
    {
      RemoveKeySpec(items, TabungId, id);
      items := RemoveKey(items, TabungId, id);
      transactions := transactions - {id};
    }

    /** fetchTabungTransactions.fulfilled: exactly one key of the map is set. */
    method TransactionsFulfilled(tabungId: string, txs: seq<TabungTransaction>)
      modifies this
      ensures transactions == old(transactions)[tabungId := txs]
      ensures tabungId in transactions && transactions[tabungId] == txs
      ensures forall k | k != tabungId :: (k in transactions <==> k in old(transactions))
      ensures forall k | k != tabungId && k in transactions :: transactions[k] == old(transactions)[k]
      ensures items == old(items) && loading == old(loading) && error == old(error)
    {
      transactions := transactions[tabungId := txs];
    }
  }
}
