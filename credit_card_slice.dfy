/**
 * src/features/creditCards/creditCardSlice.ts: cards, their transactions,
 * payments and instalment plans. A new transaction or payment is booked
 * against the first card of the same type.
 */
module CreditCardSlice {

  import opened Wrappers
  import opened Types
  import opened Lists
  import opened Text

  function CardType(c: CreditCard): CreditCardType { c.cardType }

  /** `x < 0 ? 0 : x`. */
  function ClampAtZero(x: real): (r: real)
    ensures r >= 0.0 && r >= x
    ensures r == x || r == 0.0
  {
    if x < 0.0 then 0.0 else x
  }

  /** The card after a transaction of `amount`: `outstandingBalance += amount`. */
  function Charge(c: CreditCard, amount: real): (r: CreditCard)
    ensures r.outstandingBalance == c.outstandingBalance + amount
    ensures r.(outstandingBalance := c.outstandingBalance) == c
  {
    c.(outstandingBalance := c.outstandingBalance + amount)
  }

  /** The card after a payment of `amount`: the balance drops by it, but not below zero. */
  function Pay(c: CreditCard, amount: real): (r: CreditCard)
    ensures r.outstandingBalance == ClampAtZero(c.outstandingBalance - amount)
    ensures r.outstandingBalance >= 0.0
    ensures amount >= 0.0 && c.outstandingBalance >= 0.0 ==> r.outstandingBalance <= c.outstandingBalance
    ensures amount >= c.outstandingBalance ==> r.outstandingBalance == 0.0
    ensures r.(outstandingBalance := c.outstandingBalance) == c
  {
    var after := c.outstandingBalance - amount;
    c.(outstandingBalance := if after < 0.0 then 0.0 else after)
  }

  /** Paying back exactly what was charged restores a card whose balance was not negative. */
  lemma PayUndoesCharge(c: CreditCard, amount: real)
    requires c.outstandingBalance >= 0.0
    ensures Pay(Charge(c, amount), amount) == c
  {
    assert Charge(c, amount).outstandingBalance - amount == c.outstandingBalance;
  }

  class CreditCardState {
    var cards: seq<CreditCard>
    var transactions: seq<CreditCardTransaction>
    var payments: seq<CreditCardPayment>
    var installments: seq<Installment>
    var loading: bool
    var error: Option<string>

    constructor ()
      ensures cards == [] && transactions == [] && payments == [] && installments == []
      ensures !loading && error == None
    {
      cards := [];
      transactions := [];
      payments := [];
      installments := [];
      loading := false;
      error := None;
    }

    method ClearError()
      modifies this
      ensures error == None && loading == old(loading)
      ensures cards == old(cards) && transactions == old(transactions)
      ensures payments == old(payments) && installments == old(installments)
    {
      error := None;
    }

    /** fetchCreditCards.pending: sets loading and, unlike the other slices, keeps the old error. */
    method FetchPending()
      modifies this
      ensures loading && error == old(error)
      ensures cards == old(cards) && transactions == old(transactions)
      ensures payments == old(payments) && installments == old(installments)
    {
      loading := true;
    }

    method FetchFulfilled(payload: seq<CreditCard>)
      modifies this
      ensures !loading && cards == payload && error == old(error)
      ensures transactions == old(transactions)
      ensures payments == old(payments) && installments == old(installments)
    {
      loading := false;
      cards := payload;
    }

    method FetchRejected(message: Option<string>)
      modifies this
      ensures !loading && error == Some(OrDefault(message, "Failed to fetch credit cards"))
      ensures message.None? ==> error == Some("Failed to fetch credit cards")
      ensures cards == old(cards) && transactions == old(transactions)
      ensures payments == old(payments) && installments == old(installments)
    {
      loading := false;
      error := Some(OrDefault(message, "Failed to fetch credit cards"));
    }

    /** fetchTransactions.fulfilled. */
    method TransactionsFulfilled(payload: seq<CreditCardTransaction>)
      modifies this
      ensures transactions == payload
      ensures cards == old(cards) && payments == old(payments) && installments == old(installments)
      ensures loading == old(loading) && error == old(error)
    {
      transactions := payload;
    }

    /** fetchPayments.fulfilled. */
    method PaymentsFulfilled(payload: seq<CreditCardPayment>)
      modifies this
      ensures payments == payload
      ensures cards == old(cards) && transactions == old(transactions) && installments == old(installments)
      ensures loading == old(loading) && error == old(error)
    {
      payments := payload;
    }

    /** fetchInstallments.fulfilled. */
    method InstallmentsFulfilled(payload: seq<Installment>)
      modifies this
      ensures installments == payload
      ensures cards == old(cards) && transactions == old(transactions) && payments == old(payments)
      ensures loading == old(loading) && error == old(error)
    {
      installments := payload;
    }

    /** addTransaction.fulfilled: append it, and charge the first card of its type. */
    method AddTransaction(tx: CreditCardTransaction)
      modifies this
      ensures transactions == old(transactions) + [tx]
      ensures |cards| == |old(cards)|
      ensures var i := FindIndex(old(cards), CardType, tx.cardType);
        forall j | 0 <= j < |cards| :: cards[j] == if j == i then Charge(old(cards)[j], tx.amount) else old(cards)[j]
      ensures Find(old(cards), CardType, tx.cardType).None? ==> cards == old(cards)
      ensures payments == old(payments) && installments == old(installments)
      ensures loading == old(loading) && error == old(error)
    {
      transactions := transactions + [tx];
      var cardIndex := FindIndex(cards, CardType, tx.cardType);
      if cardIndex != -1 {
        var c := cards[cardIndex];
        cards := cards[cardIndex := c.(outstandingBalance := c.outstandingBalance + tx.amount)];
      }
    }

    /** addPayment.fulfilled: append it, and pay down the first card of its type, clamped at zero. */
    method AddPayment(p: CreditCardPayment)
      modifies this
      ensures payments == old(payments) + [p]
      ensures |cards| == |old(cards)|
      ensures var i := FindIndex(old(cards), CardType, p.cardType);
        forall j | 0 <= j < |cards| :: cards[j] == if j == i then Pay(old(cards)[j], p.amount) else old(cards)[j]
      ensures Find(old(cards), CardType, p.cardType).None? ==> cards == old(cards)
      ensures transactions == old(transactions) && installments == old(installments)
      ensures loading == old(loading) && error == old(error)
    {
      payments := payments + [p];
      var cardIndex := FindIndex(cards, CardType, p.cardType);
      if cardIndex != -1 {
        var c := cards[cardIndex];
        c := c.(outstandingBalance := c.outstandingBalance - p.amount);
        if c.outstandingBalance < 0.0 {
          c := c.(outstandingBalance := 0.0);
        }
        cards := cards[cardIndex := c];
      }
    }
  }
}
