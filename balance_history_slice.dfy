/** src/features/balance/balanceHistorySlice.ts: the audit trail of balance edits, newest first. */
module BalanceHistorySlice {

  import opened Wrappers
  import opened Types
  import opened Text

  class BalanceHistoryState {
    var history: seq<BalanceHistory>
    var loading: bool
    var error: Option<string>

    constructor ()
      ensures history == [] && !loading && error == None
    {
      history := [];
      loading := false;
      error := None;
    }

    method ClearError()
      modifies this
      ensures error == None && history == old(history) && loading == old(loading)
    {
      error := None;
    }

    method FetchPending()
      modifies this
      ensures loading && error == None && history == old(history)
    {
      loading := true;
      error := None;
    }

    method FetchFulfilled(payload: seq<BalanceHistory>)
      modifies this
      ensures !loading && history == payload && error == old(error)
    {
      loading := false;
      history := payload;
    }

    method FetchRejected(message: Option<string>)
      modifies this
      ensures !loading && error == Some(OrDefault(message, "Failed to fetch balance history"))
      ensures message.None? ==> error == Some("Failed to fetch balance history")
      ensures history == old(history)
    {
      loading := false;
      error := Some(OrDefault(message, "Failed to fetch balance history"));
    }

    /** addBalanceHistory.fulfilled: `unshift`, the new entry first and the older ones in order after it. */
    method AddFulfilled(h: BalanceHistory)
      modifies this
      ensures history == [h] + old(history)
      ensures |history| == |old(history)| + 1 && history[0] == h
      ensures forall j | 0 <= j < |old(history)| :: history[j + 1] == old(history)[j]
      ensures loading == old(loading) && error == old(error)
    {
      history := [h] + history;
    }
  }
}
