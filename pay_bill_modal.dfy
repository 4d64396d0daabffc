/**
 * src/features/bills/PayBillModal.tsx: marking a bill as paid. The form
 * guesses the expense category from keywords in the bill's name and starts
 * on payment by debit; the submit checks that both selects hold a value.
 */
module PayBillModal {

  import opened Wrappers
  import opened Types
  import opened Text
  import opened FormInput

  /** The keywords of each suggestion, in the order they are tried. */
  const RentWords: seq<string> := ["rent"]
  const CreditCardWords: seq<string> := ["credit card", "cc"]
  const UtilityWords: seq<string> := ["electric", "water", "utility"]
  const WifiWords: seq<string> := ["wifi", "internet"]
  const LoanWords: seq<string> := ["loan"]

  /** Whether the (lower-cased) name includes one of the words. */
  predicate IncludesAny(name: string, words: seq<string>)
  {
    exists k | 0 <= k < |words| :: Contains(name, words[k])
  }

  /**
   * The suggested category (lines 44-51): the name is lower-cased, and the
   * first group with a keyword it includes decides; with none, 'others'.
   */
  function SuggestedCategory(billName: string): (c: ExpenseCategory)
    ensures c in {Rent, CreditCardBill, Utilities, Wifi, CarLoan, Others}
  {
    var lower := ToLower(billName);
    if Contains(lower, "rent") then Rent
    else if Contains(lower, "credit card") || Contains(lower, "cc") then CreditCardBill
    else if Contains(lower, "electric") || Contains(lower, "water") || Contains(lower, "utility") then Utilities
    else if Contains(lower, "wifi") || Contains(lower, "internet") then Wifi
    else if Contains(lower, "loan") then CarLoan
    else Others
  }

  /**
   * Each suggestion is given exactly when one of its keywords is in the
   * lower-cased name and none of an earlier group's is; 'others' exactly when
   * no keyword is.
   */
  lemma SuggestionOrder(billName: string)
    ensures var lower := ToLower(billName);
      && (SuggestedCategory(billName) == Rent <==> IncludesAny(lower, RentWords))
      && (SuggestedCategory(billName) == CreditCardBill <==>
            !IncludesAny(lower, RentWords) && IncludesAny(lower, CreditCardWords))
      && (SuggestedCategory(billName) == Utilities <==>
            !IncludesAny(lower, RentWords) && !IncludesAny(lower, CreditCardWords) && IncludesAny(lower, UtilityWords))
      && (SuggestedCategory(billName) == Wifi <==>
            !IncludesAny(lower, RentWords) && !IncludesAny(lower, CreditCardWords) && !IncludesAny(lower, UtilityWords)
            && IncludesAny(lower, WifiWords))
      && (SuggestedCategory(billName) == CarLoan <==>
            !IncludesAny(lower, RentWords) && !IncludesAny(lower, CreditCardWords) && !IncludesAny(lower, UtilityWords)
            && !IncludesAny(lower, WifiWords) && IncludesAny(lower, LoanWords))
      && (SuggestedCategory(billName) == Others <==>
            !IncludesAny(lower, RentWords) && !IncludesAny(lower, CreditCardWords) && !IncludesAny(lower, UtilityWords)
            && !IncludesAny(lower, WifiWords) && !IncludesAny(lower, LoanWords))
  {
    var lower := ToLower(billName);
    assert IncludesAny(lower, RentWords) <==> Contains(lower, "rent") by {
      if Contains(lower, "rent") { assert Contains(lower, RentWords[0]); }
    }
    assert IncludesAny(lower, CreditCardWords) <==> Contains(lower, "credit card") || Contains(lower, "cc") by {
      if Contains(lower, "credit card") { assert Contains(lower, CreditCardWords[0]); }
      if Contains(lower, "cc") { assert Contains(lower, CreditCardWords[1]); }
    }
    assert IncludesAny(lower, UtilityWords) <==>
      Contains(lower, "electric") || Contains(lower, "water") || Contains(lower, "utility") by {
      if Contains(lower, "electric") { assert Contains(lower, UtilityWords[0]); }
      if Contains(lower, "water") { assert Contains(lower, UtilityWords[1]); }
      if Contains(lower, "utility") { assert Contains(lower, UtilityWords[2]); }
    }
    assert IncludesAny(lower, WifiWords) <==> Contains(lower, "wifi") || Contains(lower, "internet") by {
      if Contains(lower, "wifi") { assert Contains(lower, WifiWords[0]); }
      if Contains(lower, "internet") { assert Contains(lower, WifiWords[1]); }
    }
    assert IncludesAny(lower, LoanWords) <==> Contains(lower, "loan") by {
      if Contains(lower, "loan") { assert Contains(lower, LoanWords[0]); }
    }
  }

  /** Matching ignores case: a name and its lower-cased form get the same suggestion. */
  lemma SuggestionIgnoresCase(billName: string)
    ensures SuggestedCategory(ToLower(billName)) == SuggestedCategory(billName)
  {
    ToLowerIdempotent(billName);
  }

  /**
   * The keywords are matched anywhere in the name, not as words: "cc" is
   * inside "account", so a name mentioning an account is taken for a credit
   * card bill unless it mentions rent, even a water bill's.
   */
  lemma AccountReadsAsCreditCard(billName: string)
    requires Contains(ToLower(billName), "account") && !Contains(ToLower(billName), "rent")
    ensures SuggestedCategory(billName) == CreditCardBill
  {
    assert "cc" <= "account"[1..];
    ContainsAt("account", "cc", 1);
    ContainsTransitive(ToLower(billName), "account", "cc");
  }

  // ---------------------------------------------------------------------
  // The form and the submit (lines 33-91)

  /** The two selects; `None` is an empty value. */
  datatype PayForm = PayForm(paymentMethod: Option<PaymentMethod>, category: Option<ExpenseCategory>)

  /** The `markBillAsPaid` argument. */
  datatype MarkPaidRequest = MarkPaidRequest(id: string, paymentMethod: PaymentMethod, category: ExpenseCategory, addedBy: UserRole)

  /** The checks of handleSubmit, in the order they run. */
  datatype PayError = NoBill | NoPaymentMethod | NoCategory

  const PayFailed := "Failed to mark bill as paid"

  /** The form set whenever the bill changes (lines 40-59): payment by debit, and the suggested category. */
  function FormFor(bill: Bill): (form: PayForm)
    ensures form.paymentMethod == Some(Debit)
    ensures form.category == Some(SuggestedCategory(bill.name))
  {
    PayForm(Some(Debit), Some(SuggestedCategory(bill.name)))
  }

  /** handleSubmit's checks and request (lines 61-84). */
  function Submit(bill: Option<Bill>, form: PayForm, currentUser: Option<User>): Result<MarkPaidRequest, PayError>
  {
    if bill.None? then Failure(NoBill)
    else if form.paymentMethod.None? then Failure(NoPaymentMethod)
    else if form.category.None? then Failure(NoCategory)
    else Success(MarkPaidRequest(bill.value.id, form.paymentMethod.value, form.category.value, ActingRole(currentUser)))
  }

  /**
   * The errors after a failed check: none is set without a bill (the old
   * ones stay); otherwise the object holds that one field's message alone.
   */
  function ErrorsAfter(e: PayError, current: map<string, string>): (errors: map<string, string>)
    ensures e == NoBill ==> errors == current
    ensures e == NoPaymentMethod ==> errors.Keys == {"paymentMethod"}
    ensures e == NoCategory ==> errors.Keys == {"category"}
  {
    match e
    case NoBill => current
    case NoPaymentMethod => map["paymentMethod" := "Payment method is required"]
    case NoCategory => map["category" := "Category is required"]
  }

  /**
   * A bill is marked paid exactly when there is one and both selects hold a
   * value; the request names the bill, the two values and the signed-in
   * user (the husband when signed out).
   */
  lemma SubmitSpec(bill: Option<Bill>, form: PayForm, currentUser: Option<User>)
    ensures Submit(bill, form, currentUser).Success? <==>
      bill.Some? && form.paymentMethod.Some? && form.category.Some?
    ensures Submit(bill, form, currentUser).Success? ==>
      var r := Submit(bill, form, currentUser).value;
      r.id == bill.value.id && Some(r.paymentMethod) == form.paymentMethod && Some(r.category) == form.category
      && r.addedBy == ActingRole(currentUser)
    ensures Submit(bill, form, currentUser) == Failure(NoCategory) ==> form.paymentMethod.Some?
  {
  }

  /**
   * The form as it opens on a bill always passes: the bill is marked paid
   * by debit under the suggested category.
   */
  lemma OpenedFormSubmits(bill: Bill, currentUser: Option<User>)
    ensures Submit(Some(bill), FormFor(bill), currentUser) ==
      Success(MarkPaidRequest(bill.id, Debit, SuggestedCategory(bill.name), ActingRole(currentUser)))
  {
  }

  /**
   * handleSubmit (lines 61-91) on the current `errors`: a failed check sets
   * its errors and sends nothing; a request that succeeds closes the modal,
   * and one rejected (`rejection` is `Some`) shows the failure's message.
   */
  method HandleSubmit(bill: Option<Bill>, form: PayForm, currentUser: Option<User>,
                      current: map<string, string>, rejection: Option<Option<string>>)
    returns (request: Option<MarkPaidRequest>, errors: map<string, string>, closed: bool)
    ensures request.Some? <==> Submit(bill, form, currentUser).Success?
    ensures request.Some? ==> request.value == Submit(bill, form, currentUser).value
    ensures request.None? ==> !closed && errors == ErrorsAfter(Submit(bill, form, currentUser).error, current)
    ensures request.Some? ==> (closed <==> rejection.None?)
    ensures request.Some? && rejection.None? ==> errors == current
    ensures request.Some? && rejection.Some? ==> errors == SubmitFailure(rejection.value, PayFailed)
  {
    var result := Submit(bill, form, currentUser);
    if result.Failure? {
      return None, ErrorsAfter(result.error, current), false;
    }
    request := Some(result.value);
    if rejection.None? {
      errors, closed := current, true;
    } else {
      errors, closed := SubmitFailure(rejection.value, PayFailed), false;
    }
  }
}
