/**
 * src/constants/categories.ts: the fixed and variable expense-category lists
 * and the label tables for categories, payment methods, income sources and
 * bill frequencies.
 */
module Categories {

  import opened Types
  import opened Lists

  /** FIXED_EXPENSE_CATEGORIES. */
  const FixedExpenseCategories: seq<ExpenseCategory> :=
    [Rent, CarLoan, StudentLoan, Utilities, Prepaid, Wifi, Toll, Fuel,
     ShopeePayLater, CreditCardBill, Savings, Family]

  /** VARIABLE_EXPENSE_CATEGORIES. */
  const VariableExpenseCategories: seq<ExpenseCategory> :=
    [Groceries, DiningOut, FoodDelivery, Shopping, Entertainment,
     Transportation, Healthcare, PersonalCare, Travel, Others]

  /** Twelve fixed and ten variable categories, no repetition within either list. */
  lemma CategoryListSizes()
    ensures |FixedExpenseCategories| == 12 && Distinct(FixedExpenseCategories)
    ensures |VariableExpenseCategories| == 10 && Distinct(VariableExpenseCategories)
  {
  }

  /** No category is both fixed and variable. */
  lemma CategoryListsDisjoint()
    ensures forall i, j | 0 <= i < 12 && 0 <= j < 10 :: FixedExpenseCategories[i] != VariableExpenseCategories[j]
  {
  }

  /** Every category is in exactly one of the two lists. */
  lemma CategoryListsPartition(c: ExpenseCategory)
    ensures (c in FixedExpenseCategories) != (c in VariableExpenseCategories)
  {
    CategoryListsDisjoint();
    CategoryListed(c);
  }

  lemma CategoryListed(c: ExpenseCategory)
    ensures c in FixedExpenseCategories || c in VariableExpenseCategories
  {
    match c
    case Rent => assert FixedExpenseCategories[0] == c;
    case CarLoan => assert FixedExpenseCategories[1] == c;
    case StudentLoan => assert FixedExpenseCategories[2] == c;
    case Utilities => assert FixedExpenseCategories[3] == c;
    case Prepaid => assert FixedExpenseCategories[4] == c;
    case Wifi => assert FixedExpenseCategories[5] == c;
    case Toll => assert FixedExpenseCategories[6] == c;
    case Fuel => assert FixedExpenseCategories[7] == c;
    case ShopeePayLater => assert FixedExpenseCategories[8] == c;
    case CreditCardBill => assert FixedExpenseCategories[9] == c;
    case Savings => assert FixedExpenseCategories[10] == c;
    case Family => assert FixedExpenseCategories[11] == c;
    case Groceries => assert VariableExpenseCategories[0] == c;
    case DiningOut => assert VariableExpenseCategories[1] == c;
    case FoodDelivery => assert VariableExpenseCategories[2] == c;
    case Shopping => assert VariableExpenseCategories[3] == c;
    case Entertainment => assert VariableExpenseCategories[4] == c;
    case Transportation => assert VariableExpenseCategories[5] == c;
    case Healthcare => assert VariableExpenseCategories[6] == c;
    case PersonalCare => assert VariableExpenseCategories[7] == c;
    case Travel => assert VariableExpenseCategories[8] == c;
    case Others => assert VariableExpenseCategories[9] == c;
  }

  /** Together the two lists enumerate the 22 categories once each. */
  lemma CategoryListsCoverAll()
    ensures |FixedExpenseCategories + VariableExpenseCategories| == 22
    ensures Distinct(FixedExpenseCategories + VariableExpenseCategories)
    ensures forall c: ExpenseCategory :: c in FixedExpenseCategories + VariableExpenseCategories
  {
    var all := FixedExpenseCategories + VariableExpenseCategories;
    forall c: ExpenseCategory ensures c in all {
      CategoryListsPartition(c);
    }
    forall i, j | 0 <= i < j < |all| ensures all[i] != all[j] {
      if j >= 12 && i < 12 {
        CategoryListsPartition(all[i]);
        assert all[j] == VariableExpenseCategories[j - 12];
      }
    }
  }

  /** CATEGORY_LABELS: a (non-empty) label for every category. */
  function CategoryLabel(c: ExpenseCategory): (r: string)
    ensures r != ""
  {
    match c
    case Rent => "Rent"
    case CarLoan => "Car Loan"
    case StudentLoan => "Student Loan"
    case Utilities => "Electricity & Water"
    case Prepaid => "Prepaid"
    case Wifi => "WiFi"
    case Toll => "Toll"
    case Fuel => "Fuel"
    case ShopeePayLater => "Shopee Pay Later"
    case CreditCardBill => "Credit Card"
    case Savings => "Savings"
    case Family => "Family"
    case Groceries => "Groceries"
    case DiningOut => "Dining Out"
    case FoodDelivery => "Food Delivery"
    case Shopping => "Shopping"
    case Entertainment => "Entertainment"
    case Transportation => "Transportation"
    case Healthcare => "Healthcare"
    case PersonalCare => "Personal Care"
    case Travel => "Travel"
    case Others => "Others"
  }

  /** A key of the untyped label tables: the wire name of a payment method. */
  function PaymentMethodKey(m: PaymentMethod): string
  {
    match m
    case Cash => "cash"
    case Cc1 => "cc1"
    case Cc2 => "cc2"
    case Cc3 => "cc3"
    case ShopeePayLaterMethod => "shopee_pay_later"
    case Debit => "debit"
  }

  /** PAYMENT_METHOD_LABELS, keyed by wire name. */
  const PaymentMethodLabels: map<string, string> :=
    map["cash" := "Cash", "cc1" := "Credit Card 1", "cc2" := "Credit Card 2",
        "cc3" := "Credit Card 3", "shopee_pay_later" := "Shopee Pay Later",
        "debit" := "Debit Card"]

  function IncomeSourceKey(s: IncomeSource): string
  {
    match s
    case Salary => "salary"
    case Bonus => "bonus"
    case Reimbursement => "reimbursement"
    case OtherSource => "other"
  }

  /** INCOME_SOURCE_LABELS. */
  const IncomeSourceLabels: map<string, string> :=
    map["salary" := "Salary", "bonus" := "Bonus", "reimbursement" := "Reimbursement", "other" := "Other"]

  function BillFrequencyKey(f: BillFrequency): string
  {
    match f
    case Monthly => "monthly"
    case Quarterly => "quarterly"
    case Yearly => "yearly"
  }

  /** BILL_FREQUENCY_LABELS. */
  const BillFrequencyLabels: map<string, string> :=
    map["monthly" := "Monthly", "quarterly" := "Quarterly", "yearly" := "Yearly"]

  /** The payment-method table has exactly the six payment methods as keys. */
  lemma PaymentMethodLabelsKeys()
    ensures |PaymentMethodLabels| == 6
    ensures forall m: PaymentMethod :: PaymentMethodKey(m) in PaymentMethodLabels
    ensures forall k | k in PaymentMethodLabels :: exists m: PaymentMethod :: PaymentMethodKey(m) == k
  {
    assert PaymentMethodLabels.Keys == {"cash", "cc1", "cc2", "cc3", "shopee_pay_later", "debit"};
    forall k | k in PaymentMethodLabels ensures exists m: PaymentMethod :: PaymentMethodKey(m) == k {
      if k == "cash" { assert PaymentMethodKey(Cash) == k; }
      else if k == "cc1" { assert PaymentMethodKey(Cc1) == k; }
      else if k == "cc2" { assert PaymentMethodKey(Cc2) == k; }
      else if k == "cc3" { assert PaymentMethodKey(Cc3) == k; }
      else if k == "shopee_pay_later" { assert PaymentMethodKey(ShopeePayLaterMethod) == k; }
      else { assert PaymentMethodKey(Debit) == k; }
    }
  }

  /** One income-source label per source. */
  lemma IncomeSourceLabelsKeys()
    ensures |IncomeSourceLabels| == 4
    ensures forall s: IncomeSource :: IncomeSourceKey(s) in IncomeSourceLabels
    ensures forall k | k in IncomeSourceLabels :: exists s: IncomeSource :: IncomeSourceKey(s) == k
  {
    assert IncomeSourceLabels.Keys == {"salary", "bonus", "reimbursement", "other"};
    forall k | k in IncomeSourceLabels ensures exists s: IncomeSource :: IncomeSourceKey(s) == k {
      if k == "salary" { assert IncomeSourceKey(Salary) == k; }
      else if k == "bonus" { assert IncomeSourceKey(Bonus) == k; }
      else if k == "reimbursement" { assert IncomeSourceKey(Reimbursement) == k; }
      else { assert IncomeSourceKey(OtherSource) == k; }
    }
  }

  /** One frequency label per frequency. */
  lemma BillFrequencyLabelsKeys()
    ensures |BillFrequencyLabels| == 3
    ensures forall f: BillFrequency :: BillFrequencyKey(f) in BillFrequencyLabels
    ensures forall k | k in BillFrequencyLabels :: exists f: BillFrequency :: BillFrequencyKey(f) == k
  {
    assert BillFrequencyLabels.Keys == {"monthly", "quarterly", "yearly"};
    forall k | k in BillFrequencyLabels ensures exists f: BillFrequency :: BillFrequencyKey(f) == k {
      if k == "monthly" { assert BillFrequencyKey(Monthly) == k; }
      else if k == "quarterly" { assert BillFrequencyKey(Quarterly) == k; }
      else { assert BillFrequencyKey(Yearly) == k; }
    }
  }
}
