/**
 * src/features/balance/balanceSlice.ts: the per-user balance records and the
 * optimistic local edit `updateBalanceLocal`. The clock read for
 * `lastUpdated` is the parameter `now`.
 */
module BalanceSlice {

  import opened Wrappers
  import opened Types
  import opened Lists
  import opened Text

  function BalanceUser(b: Balance): UserRole { b.user }

  /** A record's total is the sum of its three parts. */
  predicate TotalConsistent(b: Balance)
  {
    b.total == b.cash + b.bank + b.setAside
  }

  /** The `data` of updateBalanceLocal: the fields present in the payload. */
  datatype BalancePatch = BalancePatch(cash: Option<real>, bank: Option<real>, setAside: Option<real>)

  class BalanceState {
    var balances: seq<Balance>
    var loading: bool
    var error: Option<string>

    /** At most one record per user. */
    predicate Valid()
      reads this
    {
      UniqueKeys(balances, BalanceUser)
    }

    constructor ()
      ensures balances == [] && !loading && error == None
      ensures Valid()
    {
      balances := [];
      loading := false;
      error := None;
    }

    method ClearError()
      modifies this
      ensures error == None
      ensures balances == old(balances) && loading == old(loading)
    {
      error := None;
    }

    /**
     * updateBalanceLocal: in the first record of `user`, overwrite the fields
     * the patch has, recompute the total and stamp the time. No record, no change.
     */
    method UpdateBalanceLocal(user: UserRole, data: BalancePatch, now: string)
      modifies this
      ensures |balances| == |old(balances)|
      ensures Find(old(balances), BalanceUser, user).None? ==> balances == old(balances)
      ensures var i := FindIndex(old(balances), BalanceUser, user);
        i != -1 ==>
          var o, n := old(balances)[i], balances[i];
          && balances == old(balances)[i := n]
          && n.user == user
          && n.cash == data.cash.GetOr(o.cash)
          && n.bank == data.bank.GetOr(o.bank)
          && n.setAside == data.setAside.GetOr(o.setAside)
          && TotalConsistent(n)
          && n.openingBalance == o.openingBalance
          && n.lastUpdated == now
      ensures old(Valid()) ==> Valid()
      ensures loading == old(loading) && error == old(error)
    {
      var index := FindIndex(balances, BalanceUser, user);
      if index != -1 {
        var b := balances[index];
        if data.cash.Some? { b := b.(cash := data.cash.value); }
        if data.bank.Some? { b := b.(bank := data.bank.value); }
        if data.setAside.Some? { b := b.(setAside := data.setAside.value); }
        b := b.(total := b.cash + b.bank + b.setAside);
        b := b.(lastUpdated := now);
        if Valid() {
          UpdateKeepsUnique(balances, BalanceUser, index, b);
        }
        balances := balances[index := b];
      }
    }

    /** fetchBalances.pending. */
    method FetchPending()
      modifies this
      ensures loading && error == None && balances == old(balances)
    {
      loading := true;
      error := None;
    }

    /** fetchBalances.fulfilled. */
    method FetchFulfilled(payload: seq<Balance>)
      modifies this
      ensures !loading && balances == payload && error == old(error)
    {
      loading := false;
      balances := payload;
    }

    /** fetchBalances.rejected. */
    method FetchRejected(message: Option<string>)
      modifies this
      ensures !loading && error == Some(OrDefault(message, "Failed to fetch balances"))
      ensures message.None? ==> error == Some("Failed to fetch balances")
      ensures balances == old(balances)
    {
      loading := false;
      error := Some(OrDefault(message, "Failed to fetch balances"));
    }

    /** fetchBalanceByUser.fulfilled: a null payload is ignored, otherwise the user's record is upserted. */
    method ByUserFulfilled(payload: Option<Balance>)
      modifies this
      ensures payload.None? ==> balances == old(balances)
      ensures payload.Some? ==> balances == Upsert(old(balances), BalanceUser, payload.value)
      ensures payload.Some? ==> Find(balances, BalanceUser, payload.value.user) == payload
      ensures |old(balances)| <= |balances| <= |old(balances)| + 1
      ensures old(Valid()) ==> Valid()
      ensures loading == old(loading) && error == old(error)
    {
      if payload.Some? {
        var b := payload.value;
        UpsertSpec(balances, BalanceUser, b);
        var index := FindIndex(balances, BalanceUser, b.user);
        if index != -1 {
          balances := balances[index := b];
        } else {
          balances := balances + [b];
        }
      }
    }

    /** updateBalance and adjustBalance (fulfilled): replace the record of that user; an unknown user is ignored. */
    method ReplaceFulfilled(b: Balance)
      modifies this
      ensures balances == ReplaceFirst(old(balances), BalanceUser, b.user, b)
      ensures |balances| == |old(balances)|
      ensures forall j | 0 <= j < |balances| ::
        balances[j] == if j == FindIndex(old(balances), BalanceUser, b.user) then b else old(balances)[j]
      ensures Find(old(balances), BalanceUser, b.user).None? ==> balances == old(balances)
      ensures old(Valid()) ==> Valid()
      ensures loading == old(loading) && error == old(error)
    {
      ReplaceFirstSpec(balances, BalanceUser, b.user, b);
      if Valid() {
        ReplaceFirstKeepsUnique(balances, BalanceUser, b);
      }
      var index := FindIndex(balances, BalanceUser, b.user);
      if index != -1 {
        balances := balances[index := b];
      }
    }
  }
}
