/**
 * The records the application exchanges with its API, with the fields the
 * modelled code reads or writes. Optional fields are `Option`s; identifiers
 * and date fields are the strings the API sends.
 */
module Types {

  import opened Wrappers

  datatype UserRole = Husband | Wife

  datatype TransactionStatus = Pending | Approved | Rejected

  datatype PaymentMethod = Cash | Cc1 | Cc2 | Cc3 | ShopeePayLaterMethod | Debit

  datatype IncomeSource = Salary | Bonus | Reimbursement | OtherSource

  datatype ExpenseCategory =
    | Rent | CarLoan | StudentLoan | Utilities | Prepaid | Wifi | Toll
    | Fuel | ShopeePayLater | CreditCardBill | Savings | Family
    | Groceries | DiningOut | FoodDelivery | Shopping | Entertainment
    | Transportation | Healthcare | PersonalCare | Travel | Others

  datatype BillFrequency = Monthly | Quarterly | Yearly

  /** A bill's `type`: an ordinary bill or a credit-card payment. */
  datatype BillType = RegularBill | CreditCardPaymentBill

  datatype CreditCardType = CardOne | CardTwo | CardThree

  datatype BalanceField = CashField | BankField | SetAsideField

  datatype TabungStatus = Active | Completed

  datatype TabungTransactionType = Save | Withdraw

  datatype Income = Income(
    id: string, date: string, amount: real, source: IncomeSource, user: UserRole,
    notes: Option<string>, status: TransactionStatus, addedBy: UserRole)

  datatype Expense = Expense(
    id: string, date: string, amount: real, category: ExpenseCategory,
    paymentMethod: PaymentMethod, description: string, addedBy: UserRole,
    notes: Option<string>, status: TransactionStatus)

  datatype Bill = Bill(
    id: string, billType: BillType, name: string, amount: real, dueDate: string,
    recurring: bool, frequency: Option<BillFrequency>, isPaid: bool)

  datatype Budget = Budget(
    id: string, month: string, category: ExpenseCategory, plannedAmount: real,
    createdAt: string, updatedAt: string)

  /** `user` and `owner` are declared required but the forms guard against either being absent. */
  datatype CreditCard = CreditCard(
    id: string, name: string, cardType: CreditCardType, bank: string,
    creditLimit: real, outstandingBalance: real, statementBalance: real,
    minimumPayment: real, statementDueDate: Option<string>, paymentDueDate: int,
    minimumPaymentPercent: real, owner: Option<UserRole>, user: Option<UserRole>)

  datatype CreditCardTransaction = CreditCardTransaction(
    id: string, cardType: CreditCardType, date: string, amount: real)

  datatype CreditCardPayment = CreditCardPayment(
    id: string, cardType: CreditCardType, date: string, amount: real)

  datatype Installment = Installment(
    id: string, creditCardId: string, cardType: CreditCardType, user: UserRole,
    itemName: string, description: Option<string>, totalAmount: real,
    monthlyInstallment: real, totalInstallments: int, paidInstallments: int,
    interestRate: real, startDate: string)

  datatype Balance = Balance(
    user: UserRole, cash: real, bank: real, setAside: real, total: real,
    openingBalance: real, lastUpdated: string)

  datatype BalanceHistory = BalanceHistory(
    id: string, user: UserRole, changedBy: UserRole, field: BalanceField,
    oldValue: real, newValue: real, reason: Option<string>, timestamp: string)

  datatype Reserved = Reserved(
    id: string, user: UserRole, purpose: string, amount: real, dueDate: Option<string>)

  datatype Tabung = Tabung(
    id: string, user: UserRole, name: string, description: Option<string>,
    targetAmount: real, savedAmount: real, targetDate: Option<string>,
    status: TabungStatus, progressPercentage: Option<real>, remainingAmount: Option<real>)

  datatype TabungTransaction = TabungTransaction(
    id: string, tabungId: string, user: UserRole, kind: TabungTransactionType,
    amount: real, previousAmount: real, newAmount: real, reason: Option<string>)

  /** The `(id, amount, reason)` arguments of saving into and withdrawing from a tabung; a NaN amount is `None`. */
  datatype TabungAmountRequest = TabungAmountRequest(id: string, amount: Option<real>, reason: Option<string>)

  /** The `'all' | UserRole` filter of the reserved and tabung pages. */
  datatype UserFilter = AllUsers | OnlyUser(role: UserRole)

  /** The signed-in user as the login response describes it. */
  datatype User = User(id: string, name: string, role: UserRole)

  /** `currentUser?.role || 'husband'`: the acting user, husband when nobody is signed in. */
  function ActingRole(currentUser: Option<User>): (r: UserRole)
    ensures currentUser.None? ==> r == Husband
    ensures currentUser.Some? ==> r == currentUser.value.role
  {
    if currentUser.Some? then currentUser.value.role else Husband
  }

  /** The wire name of a balance field. */
  function FieldName(f: BalanceField): string
  {
    match f
    case CashField => "cash"
    case BankField => "bank"
    case SetAsideField => "setAside"
  }
}
