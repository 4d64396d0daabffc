# Household finance: a verified model of the front end's logic

This project models, in Dafny, the deterministic logic of a React/Redux
household-finance front end used by a husband and a wife. The app tracks
balances (wallet, bank and reserved money), incomes, expenses that need
approval, bills, credit cards with instalment plans, reserved money and
savings pots called tabung.

The model covers these parts of the app:

- **The financial calendar** (`DateUtils`, `Calendar`). A financial month runs
  from the 25th to the 24th of the next month. Dates are (year, month, day)
  triples, and "today" is always a parameter.
- **Currency text.** `formatCurrency` prints "RM" and a comma-grouped amount.
  The model takes the amount in whole cents.
- **Category tables** (`Categories`).
- **`MockStorage`**, a small key-value store (`MockApi`).
- **The Redux slices.** Each slice is a class whose `seq` fields the reducer
  methods reassign, with "nothing else changes" postconditions. These are
  stated through list functions keyed by id (`Lists`).
- **Derived figures of the pages and lists**: month totals and surplus,
  per-user totals, category breakdown and top five, credit utilisation and
  its bands, bill and reserved due-date urgency, and tabung statistics.
- **The validators of the modals** and the requests they build.
  - The ordered guard chains are functions returning a `Result`, where the
    first failed check wins.
  - The validators that build an error object are methods.
  - A numeric input is `Blank`, `NotANumber` or a number (`FormInput`). This
    keeps JavaScript's NaN behaviour: a non-empty text that is not a number
    passes a `> 0` check.

Each source file is one module. Its name is the file's, e.g.
`src/features/bills/billSlice.ts` is `BillSlice`.

Where the code and its own comments disagree, the model follows the code.
One case is `getFinancialMonthRange`. The comments in `src/utils/dateUtils.ts`
(lines 2, 21, 25 and 29) describe a range from the 25th to the 24th of the next
month. The code builds local midnights and prints them in UTC, so east of UTC
every bound comes out a day early. Both versions are modelled (see Findings).
Everywhere else the model assumes a host whose clock is at UTC (see Left out).

## Model

| member | source | states |
|---|---|---|
| `DateUtils.YearMonthRoundTrip` | src/utils/dateUtils.ts:15-18 | the "YYYY-MM" identifier (month zero-padded to two digits) parses back to the same year and month |
| `DateUtils.FormatYearMonthInjective` | src/utils/dateUtils.ts:15-18 | different months have different identifiers |
| `DateUtils.GetCurrentFinancialMonth` | src/utils/dateUtils.ts:6-19 | the identifier of the financial month of today: the previous calendar month on days 1-24 (January gives December of the year before), the current month from the 25th |
| `DateUtils.FinancialMonthRangeSpec` | src/utils/dateUtils.ts:22-34 | the range starts on the 25th of the month and ends on the 24th of the next (December rolls to January of the next year), and start < end |
| `DateUtils.IsInFinancialMonthIff` | src/utils/dateUtils.ts:60-63 | for an ISO date the inclusive string comparison holds exactly when the 25th <= date <= the 24th of the next month |
| `DateUtils.FinancialMonthContains` | src/utils/dateUtils.ts:6-34 | every date lies in the financial month it is assigned to |
| `DateUtils.FinancialMonthUnique` | src/utils/dateUtils.ts:60-63 | a date lies in no other financial month, so consecutive months neither overlap nor leave gaps |
| `DateUtils.RangeOnHostAtOrWestOfUtc` | src/utils/dateUtils.ts:22-34 | at or west of UTC the source's local-midnight-to-UTC conversion gives the intended range |
| `DateUtils.RangeOnHostEastOfUtc` | src/utils/dateUtils.ts:22-34 | at UTC+8 the source's range for December 2024 is 24 Dec to 23 Jan, so 24 Jan drops out and 24 Dec falls in, although 24 Jan 2025 belongs to the December 2024 financial month |
| `DateUtils.FinancialMonthNameExample` | src/utils/dateUtils.ts:51-57 | "2024-12" is named "December 2024" |
| `DateUtils.FinancialMonthNameInjective` | src/utils/dateUtils.ts:52-57 | the name is the full month name plus the year, and different months get different names |
| `DateUtils.FormatFinancialMonthRangeShape` | src/utils/dateUtils.ts:37-49 | for every month the text is its short name, " 25, " and its year, then " - ", then the short name of the following month, " 24, " and that month's year (December rolls over to January of the next year) |
| `DateUtils.FormatFinancialMonthRangeExample` | src/utils/dateUtils.ts:36-49 | the range text is "Mon D, YYYY - Mon D, YYYY", e.g. "Dec 25, 2024 - Jan 24, 2025" |
| `DateUtils.FormatCurrencyGroups` | src/utils/dateUtils.ts:83-85 | the currency text is "RM", the sign, the integer part with a comma before each group of three digits counted from the decimal point, "." and exactly two decimals |
| `DateUtils.InsertCommasShape` | src/utils/dateUtils.ts:84 | the grouping regular expression inserts commas only inside the integer part, never after a leading "-" and never among the decimals |
| `DateUtils.FormatCurrencyExamples` | src/utils/dateUtils.ts:83-85 | 1234.50 prints as "RM1,234.50" and -1234.50 as "RM-1,234.50" |
| `DateUtils.MonthsBefore` | src/features/income/IncomePage.tsx:73-85 | the month i months earlier, with the month kept in 1..12 and the year borrowing across January |
| `DateUtils.GetLastDayOfMonth` | src/utils/dateUtils.ts:93-95 | the last day of a (0-based, possibly out-of-range) month lies between 28 and 31 |
| `DateUtils.LastDayPrecedesNextMonth` | src/utils/dateUtils.ts:93-95 | day 0 of the next month: the last day of the month is the day just before the 1st of the following month |
| `DateUtils.DaysUntilSign` | src/utils/dateUtils.ts:97-104 | the whole-day difference target - today: 0 for today, negative for past dates, positive for future ones |
| `DateUtils.GetDaysUntilDate` | src/utils/dateUtils.ts:97-104 | setting both instants to midnight and taking the ceiling of the millisecond difference over a day gives the day-number difference |
| `DateUtils.WholeDays` | src/utils/dateUtils.ts:102-103 | the difference of two midnights divided by a day is a whole number of days |
| `Calendar.IsoDateOrder` | src/utils/dateUtils.ts:60-63 | string order on fixed-width ISO dates is chronological order |
| `Calendar.ParseIsoDateRoundTrip` | src/utils/dateUtils.ts:97-98 | reading back the ISO text of a valid date gives the date |
| `Calendar.ParseIsoDateSound` | src/utils/dateUtils.ts:97-98 | the strings accepted as dates are exactly the ISO texts of valid dates |
| `Calendar.DayNumberOrder` | src/utils/dateUtils.ts:97-104 | day numbers follow chronological order, so their difference counts days |
| `Categories.CategoryListSizes` | src/constants/categories.ts:3-29 | 12 fixed and 10 variable categories, no repetition within either list |
| `Categories.CategoryListsDisjoint` | src/constants/categories.ts:3-29 | no category is both fixed and variable |
| `Categories.CategoryListsPartition` | src/constants/categories.ts:3-29 | every category is in exactly one of the two lists |
| `Categories.CategoryListsCoverAll` | src/constants/categories.ts:3-29 | together the lists enumerate the 22 ExpenseCategory values once each |
| `Categories.CategoryLabel` | src/constants/categories.ts:31-54 | every category has a non-empty label |
| `Categories.PaymentMethodLabelsKeys` | src/constants/categories.ts:56-63 | the payment-method table has exactly the six payment methods as keys |
| `Categories.IncomeSourceLabelsKeys` | src/constants/categories.ts:65-70 | one label per income source, four in all |
| `Categories.BillFrequencyLabelsKeys` | src/constants/categories.ts:72-76 | one label per bill frequency, three in all |
| `MockApi.ReadBackAfterSet` | src/services/mockApi.ts:16-22 | after a set, the key reads back its value (null for an empty value) and other keys read as before |
| `MockApi.ReadBackAfterRemove` | src/services/mockApi.ts:24-26 | after a remove the key reads as null and other keys are unchanged |
| `MockApi.SetOverwrites` | src/services/mockApi.ts:16-18 | a later set on the same key overwrites the earlier one |
| `MockApi.MockStorage.constructor` | src/services/mockApi.ts:13-14 | an empty store: every key reads as null |
| `MockApi.MockStorage.SetItem` | src/services/mockApi.ts:16-18 | only that key's entry changes, and a non-empty value reads back |
| `MockApi.MockStorage.GetItem` | src/services/mockApi.ts:20-22 | the stored value, or null for a key never set or a stored empty string |
| `MockApi.MockStorage.RemoveItem` | src/services/mockApi.ts:24-26 | the key reads as null; every other key reads as before |
| `MockApi.MockStorage.Clear` | src/services/mockApi.ts:28-30 | every key reads as null |
| `DateUtils.DecemberRange` | src/utils/dateUtils.ts:22-36 | the financial month 2024-12 runs from "2024-12-25" to "2025-01-24" |
| `DateUtils.MonthNamesDistinct` | src/utils/dateUtils.ts:55 | no two months share a long name |
| `Lists.ReplaceFirstSpec` | src/features/income/incomeSlice.ts:70-75 | the find-index-then-assign update keeps the length, replaces only the first element with the key, and changes nothing when no element has it |
| `Lists.UpsertSpec` | src/features/tabung/tabungSlice.ts:123-130 | replace-or-push leaves the element findable under its key, grows the list by at most one and keeps keys unique |
| `Lists.RemoveKeySpec` | src/features/income/incomeSlice.ts:76-78 | filtering out a key keeps exactly the elements with another key and keeps keys unique |
| `Lists.FilterPartition` | src/features/bills/BillsPage.tsx:41-43 | two complementary filters together keep every element exactly once |
| `Lists.SumPartition` | src/features/expenses/ExpensesPage.tsx:84-90 | the sums over two complementary filters add up to the sum over the whole list |
| `Lists.FilterAppend` | src/features/income/incomeSlice.ts:76-78 | filtering keeps the relative order of what it keeps |
| `TabungSlice.TabungState.constructor` | src/features/tabung/tabungSlice.ts:12-17 | no pots, an empty transactions map, not loading, no error |
| `TabungSlice.TabungState.ClearError` | src/features/tabung/tabungSlice.ts:102-104 | only the error is cleared |
| `TabungSlice.TabungState.FetchPending` | src/features/tabung/tabungSlice.ts:109-112 | loading set, error cleared, data untouched |
| `TabungSlice.TabungState.FetchFulfilled` | src/features/tabung/tabungSlice.ts:113-116 | the list is replaced wholesale and loading ends |
| `TabungSlice.TabungState.FetchRejected` | src/features/tabung/tabungSlice.ts:117-120 | loading ends and the error is the message or 'Failed to fetch tabung' |
| `TabungSlice.TabungState.FetchByIdFulfilled` | src/features/tabung/tabungSlice.ts:123-130 | upsert by id: the pot is then found under its id and the length grows by at most one |
| `TabungSlice.TabungState.CreateFulfilled` | src/features/tabung/tabungSlice.ts:133-135 | the new pot is at index 0 and the old pots follow unchanged |
| `TabungSlice.TabungState.ReplaceFulfilled` | src/features/tabung/tabungSlice.ts:138-165 | update, save and withdraw replace only the first pot with the id; with no match nothing changes |
| `TabungSlice.TabungState.DeleteFulfilled` | src/features/tabung/tabungSlice.ts:146-149 | every pot with the id goes and so does its transactions entry; other entries untouched |
| `TabungSlice.TabungState.TransactionsFulfilled` | src/features/tabung/tabungSlice.ts:168-173 | exactly one key of the transactions map is set |
| `BalanceSlice.BalanceState.constructor` | src/features/balance/balanceSlice.ts:11-15 | no records, not loading, no error |
| `BalanceSlice.BalanceState.ClearError` | src/features/balance/balanceSlice.ts:50-52 | only the error is cleared |
| `BalanceSlice.BalanceState.UpdateBalanceLocal` | src/features/balance/balanceSlice.ts:55-75 | no record for the user: no change; otherwise only the first record of the user changes, only the fields present in the patch are overwritten, and its total is cash + bank + setAside |
| `BalanceSlice.BalanceState.FetchPending` | src/features/balance/balanceSlice.ts:80-83 | loading set and error cleared |
| `BalanceSlice.BalanceState.FetchFulfilled` | src/features/balance/balanceSlice.ts:84-87 | the list is replaced and loading ends |
| `BalanceSlice.BalanceState.FetchRejected` | src/features/balance/balanceSlice.ts:88-91 | the message or 'Failed to fetch balances' |
| `BalanceSlice.BalanceState.ByUserFulfilled` | src/features/balance/balanceSlice.ts:94-103 | a null payload is ignored; otherwise the user's record is replaced or appended |
| `BalanceSlice.BalanceState.ReplaceFulfilled` | src/features/balance/balanceSlice.ts:106-119 | updateBalance and adjustBalance replace the user's record and ignore unknown users |
| `BalanceHistorySlice.BalanceHistoryState.constructor` | src/features/balance/balanceHistorySlice.ts:11-15 | empty history, not loading, no error |
| `BalanceHistorySlice.BalanceHistoryState.ClearError` | src/features/balance/balanceHistorySlice.ts:35-37 | only the error is cleared |
| `BalanceHistorySlice.BalanceHistoryState.FetchPending` | src/features/balance/balanceHistorySlice.ts:41-44 | loading set and error cleared |
| `BalanceHistorySlice.BalanceHistoryState.FetchFulfilled` | src/features/balance/balanceHistorySlice.ts:45-48 | history replaced and loading ends |
| `BalanceHistorySlice.BalanceHistoryState.FetchRejected` | src/features/balance/balanceHistorySlice.ts:49-52 | the message or 'Failed to fetch balance history' |
| `BalanceHistorySlice.BalanceHistoryState.AddFulfilled` | src/features/balance/balanceHistorySlice.ts:53-55 | the new entry is at index 0 and the older ones keep their order |
| `BudgetSlice.BudgetState.constructor` | src/features/budget/budgetSlice.ts:11-40 | three budgets for the current month: groceries 1500, dining_out 500, fuel 400 |
| `BudgetSlice.BudgetState.ClearError` | src/features/budget/budgetSlice.ts:67-69 | only the error is cleared |
| `BudgetSlice.BudgetState.SetBudget` | src/features/budget/budgetSlice.ts:46-66 | the first budget with that month and category gets the amount and timestamp and no other budget changes; with none exactly one budget is appended; afterwards that month and category carry the amount |
| `CreditCardSlice.ClampAtZero` | src/features/creditCards/creditCardSlice.ts:94-96 | the result is never negative and is either the input or 0 |
| `CreditCardSlice.Charge` | src/features/creditCards/creditCardSlice.ts:86-88 | only the outstanding balance changes, by the amount |
| `CreditCardSlice.Pay` | src/features/creditCards/creditCardSlice.ts:92-97 | the balance becomes max(old - amount, 0); no other field changes |
| `CreditCardSlice.PayUndoesCharge` | src/features/creditCards/creditCardSlice.ts:83-98 | paying back exactly what was charged restores a card with a non-negative balance |
| `CreditCardSlice.CreditCardState.constructor` | src/features/creditCards/creditCardSlice.ts:14-21 | empty lists, not loading, no error |
| `CreditCardSlice.CreditCardState.ClearError` | src/features/creditCards/creditCardSlice.ts:57-59 | only the error is cleared |
| `CreditCardSlice.CreditCardState.FetchPending` | src/features/creditCards/creditCardSlice.ts:63-65 | loading set; the old error is kept |
| `CreditCardSlice.CreditCardState.FetchFulfilled` | src/features/creditCards/creditCardSlice.ts:66-69 | cards replaced and loading ends |
| `CreditCardSlice.CreditCardState.FetchRejected` | src/features/creditCards/creditCardSlice.ts:70-73 | the message or 'Failed to fetch credit cards' |
| `CreditCardSlice.CreditCardState.TransactionsFulfilled` | src/features/creditCards/creditCardSlice.ts:74-76 | only the transactions list is replaced |
| `CreditCardSlice.CreditCardState.PaymentsFulfilled` | src/features/creditCards/creditCardSlice.ts:77-79 | only the payments list is replaced |
| `CreditCardSlice.CreditCardState.InstallmentsFulfilled` | src/features/creditCards/creditCardSlice.ts:80-82 | only the instalment list is replaced |
| `CreditCardSlice.CreditCardState.AddTransaction` | src/features/creditCards/creditCardSlice.ts:83-89 | the transaction is appended and only the first card of its type is charged; with no such card only the list changes |
| `CreditCardSlice.CreditCardState.AddPayment` | src/features/creditCards/creditCardSlice.ts:90-98 | the payment is appended and only the first card of its type is paid down, clamped at 0; with no such card only the list changes |
| `ExpenseSlice.ExpenseState.constructor` | src/features/expenses/expenseSlice.ts:12-17 | both lists empty, not loading, no error |
| `ExpenseSlice.ExpenseState.ClearError` | src/features/expenses/expenseSlice.ts:66-68 | only the error is cleared |
| `ExpenseSlice.ExpenseState.FetchPending` | src/features/expenses/expenseSlice.ts:72-74 | loading set; the error is kept |
| `ExpenseSlice.ExpenseState.FetchFulfilled` | src/features/expenses/expenseSlice.ts:75-78 | expenses replaced and loading ends |
| `ExpenseSlice.ExpenseState.FetchRejected` | src/features/expenses/expenseSlice.ts:79-82 | the message or 'Failed to fetch expenses' |
| `ExpenseSlice.ExpenseState.FetchPendingFulfilled` | src/features/expenses/expenseSlice.ts:83-85 | only the pending list is replaced |
| `ExpenseSlice.ExpenseState.CreateFulfilled` | src/features/expenses/expenseSlice.ts:86-91 | appended to expenses, and to the pending list exactly when its status is pending |
| `ExpenseSlice.ExpenseState.UpdateFulfilled` | src/features/expenses/expenseSlice.ts:92-97 | the first match in expenses is replaced; the pending list is untouched |
| `ExpenseSlice.ExpenseState.DeleteFulfilled` | src/features/expenses/expenseSlice.ts:98-101 | every entry with the id leaves both lists |
| `ExpenseSlice.ExpenseState.ApproveFulfilled` | src/features/expenses/expenseSlice.ts:102-108 | the match is replaced and the id leaves the pending list |
| `IncomeSlice.IncomeState.constructor` | src/features/income/incomeSlice.ts:11-15 | no incomes, not loading, no error |
| `IncomeSlice.IncomeState.ClearError` | src/features/income/incomeSlice.ts:50-52 | only the error is cleared |
| `IncomeSlice.IncomeState.FetchPending` | src/features/income/incomeSlice.ts:56-58 | loading set |
| `IncomeSlice.IncomeState.FetchFulfilled` | src/features/income/incomeSlice.ts:59-62 | incomes replaced and loading ends |
| `IncomeSlice.IncomeState.FetchRejected` | src/features/income/incomeSlice.ts:63-66 | the message or 'Failed to fetch incomes' |
| `IncomeSlice.IncomeState.CreateFulfilled` | src/features/income/incomeSlice.ts:67-69 | exactly one element more, at the end |
| `IncomeSlice.IncomeState.UpdateFulfilled` | src/features/income/incomeSlice.ts:70-75 | the first element with the id is replaced, otherwise no change |
| `IncomeSlice.IncomeState.DeleteFulfilled` | src/features/income/incomeSlice.ts:76-78 | every element with the id goes and the rest keep their order |
| `ReservedSlice.ReservedState.constructor` | src/features/reserved/reservedSlice.ts:11-15 | no items, not loading, no error |
| `ReservedSlice.ReservedState.ClearError` | src/features/reserved/reservedSlice.ts:70-72 | only the error is cleared |
| `ReservedSlice.ReservedState.FetchPending` | src/features/reserved/reservedSlice.ts:77-80 | loading set and error cleared |
| `ReservedSlice.ReservedState.FetchFulfilled` | src/features/reserved/reservedSlice.ts:81-84 | items replaced and loading ends |
| `ReservedSlice.ReservedState.FetchRejected` | src/features/reserved/reservedSlice.ts:85-88 | the message or 'Failed to fetch reserved items' |
| `ReservedSlice.ReservedState.CreateFulfilled` | src/features/reserved/reservedSlice.ts:90-92 | the new item is prepended |
| `ReservedSlice.ReservedState.ReplaceById` | src/features/reserved/reservedSlice.ts:94-99 | the first item with the id is replaced and the length never changes |
| `ReservedSlice.ReservedState.UpdateFulfilled` | src/features/reserved/reservedSlice.ts:94-99 | updateReservedItem replaces the item with the returned item's id |
| `ReservedSlice.ReservedState.DeleteFulfilled` | src/features/reserved/reservedSlice.ts:101-103 | every item with the id goes |
| `ReservedSlice.ReservedState.DepositBackFulfilled` | src/features/reserved/reservedSlice.ts:105-116 | a null result (full deposit) removes the item, otherwise the returned item replaces it |
| `BillSlice.BillState.constructor` | src/features/bills/billSlice.ts:12-17 | both lists empty, not loading, no error |
| `BillSlice.BillState.ClearError` | src/features/bills/billSlice.ts:74-76 | only the error is cleared |
| `BillSlice.BillState.FetchPending` | src/features/bills/billSlice.ts:80-82 | loading set |
| `BillSlice.BillState.FetchFulfilled` | src/features/bills/billSlice.ts:83-86 | bills replaced and loading ends |
| `BillSlice.BillState.FetchRejected` | src/features/bills/billSlice.ts:87-90 | the message or 'Failed to fetch bills' |
| `BillSlice.BillState.UpcomingFulfilled` | src/features/bills/billSlice.ts:91-93 | only upcomingBills is replaced |
| `BillSlice.BillState.CreateFulfilled` | src/features/bills/billSlice.ts:94-96 | appended to bills only |
| `BillSlice.BillState.UpdateFulfilled` | src/features/bills/billSlice.ts:97-102 | the first match in bills is replaced; upcomingBills untouched |
| `BillSlice.BillState.MarkPaidFulfilled` | src/features/bills/billSlice.ts:103-109 | the match is replaced and its id leaves upcomingBills |
| `BillSlice.BillState.DeleteFulfilled` | src/features/bills/billSlice.ts:110-113 | the id leaves both lists |
| `AuthSlice.AuthState.constructor` | src/features/auth/authSlice.ts:18-25 | signed out, no user or token, not loading, isChecking set |
| `AuthSlice.AuthState.ClearError` | src/features/auth/authSlice.ts:48-50 | only the error is cleared |
| `AuthSlice.AuthState.SetAuthChecked` | src/features/auth/authSlice.ts:51-53 | only isChecking is cleared |
| `AuthSlice.AuthState.LoginPending` | src/features/auth/authSlice.ts:57-60 | loading set and error cleared |
| `AuthSlice.AuthState.LoginFulfilled` | src/features/auth/authSlice.ts:61-67 | signed in with the returned user and token; loading and isChecking cleared |
| `AuthSlice.AuthState.LoginRejected` | src/features/auth/authSlice.ts:68-72 | loading and isChecking cleared, error is the message or 'Login failed', sign-in state unchanged |
| `AuthSlice.AuthState.LogoutFulfilled` | src/features/auth/authSlice.ts:73-77 | signed out, user and token dropped |
| `AuthSlice.AuthState.CheckAuthFulfilled` | src/features/auth/authSlice.ts:78-85 | isChecking always cleared; signs in only on a non-null payload |
| `Dashboard.MonthlyIncomeStep` | src/features/dashboard/Dashboard.tsx:44-46 | the month's income is 0 for no incomes, and each further income adds its amount exactly when it is approved and its date lies in [start, end] inclusive |
| `Dashboard.MonthlyExpensesStep` | src/features/dashboard/Dashboard.tsx:48-50 | the same date-range and approved filter for expenses, 0 for none |
| `Dashboard.MonthlyIncomeBounds` | src/features/dashboard/Dashboard.tsx:44-46 | with non-negative amounts the month's income lies between 0 and the sum of all incomes |
| `Dashboard.SurplusNegativeWithoutIncome` | src/features/dashboard/Dashboard.tsx:52 | the surplus is income minus expenses and goes negative when only an expense is counted |
| `Dashboard.UserTotalCases` | src/features/dashboard/Dashboard.tsx:54-59 | a user's total is taken from the first record of that user (its stored total when consistent), and a missing record counts as 0 |
| `Dashboard.TotalBalanceIsSumOfTotals` | src/features/dashboard/Dashboard.tsx:54-60 | with one consistent record per user, husbandTotal + wifeTotal is the sum of all stored totals |
| `IncomePage.TotalIncomeCountsEveryStatus` | src/features/income/IncomePage.tsx:33-35 | the page total filters by date alone: it is the approved total plus the in-range incomes that are not approved |
| `IncomePage.GenerateMonthOptions` | src/features/income/IncomePage.tsx:73-85 | twelve options, the i-th the calendar month i months before today's, starting with today's month, all distinct |
| `IncomePage.MonthOptionsDistinct` | src/features/income/IncomePage.tsx:73-85 | different positions give different "YYYY-MM" values, across year boundaries too |
| `IncomePage.GetSourceLabel` | src/features/income/IncomePage.tsx:87-95 | the label of a known source, any other string unchanged |
| `IncomePage.SourceLabelsKnown` | src/features/income/IncomePage.tsx:87-95 | the four known sources get their labels and an unknown one comes back as is |
| `IncomePage.DeleteConfirm.constructor` | src/features/income/IncomePage.tsx:51-65 | nothing is armed at first |
| `IncomePage.DeleteConfirm.Click` | src/features/income/IncomePage.tsx:51-65 | a click deletes exactly when its id is the armed one; a click on another id arms that id and deletes nothing |
| `IncomePage.DeleteConfirm.TimerExpired` | src/features/income/IncomePage.tsx:63 | the confirmation is disarmed |
| `ExpensesPage.StatusSplit` | src/features/expenses/ExpensesPage.tsx:77-78 | approved and pending are status filters; rejected expenses are in neither and the three groups cover the list |
| `ExpensesPage.CategoryBreakdown` | src/features/expenses/ExpensesPage.tsx:84-90 | one entry per category that occurs, holding the sum of that category's amounts, and the entries sum to the total |
| `ExpensesPage.BreakdownSpec` | src/features/expenses/ExpensesPage.tsx:84-90 | the reduce's accumulator holds, after any prefix, one correct total per category seen so far |
| `ExpensesPage.SortDescSpec` | src/features/expenses/ExpensesPage.tsx:93 | the sort is by non-increasing amount and is a permutation |
| `ExpensesPage.TopCategoriesSpec` | src/features/expenses/ExpensesPage.tsx:92-94 | at most five entries, non-increasing, all from the breakdown, and no omitted entry exceeds the last one kept |
| `ExpensesPage.AveragePerDaySpec` | src/features/expenses/ExpensesPage.tsx:146 | thirty days of the average give the approved total; with no approved expense it is 0 |
| `CreditCardsPage.TotalAvailableIsSum` | src/features/creditCards/CreditCardsPage.tsx:18-20 | totalLimit - totalOutstanding is the sum over the cards of each card's available credit |
| `CreditCardsPage.AverageUtilizationSpec` | src/features/creditCards/CreditCardsPage.tsx:21 | 0 when the total limit is <= 0, otherwise outstanding / limit x 100; within [0, 100] when each balance lies within its limit |
| `CreditCardsPage.RatioBounds` | src/features/creditCards/CreditCardsPage.tsx:80 | a part over a positive whole lies in [0, 1] |
| `CreditCardsPage.InstallmentBounds` | src/features/creditCards/CreditCardsPage.tsx:80-81 | with paid <= total and total >= 1, progress lies in [0, 100], remaining >= 0, 100 exactly when nothing remains, 0 exactly when nothing is paid |
| `CreditCardWidget.UtilizationAndAvailable` | src/features/creditCards/CreditCardWidget.tsx:11-12 | for a positive limit the utilisation and the available credit split the limit; over 100 exactly when no credit is left |
| `CreditCardWidget.MinimumPaymentBounds` | src/features/creditCards/CreditCardWidget.tsx:13 | the displayed minimum ignores the stored minimumPayment and lies between 0 and the outstanding balance |
| `CreditCardWidget.Band` | src/features/creditCards/CreditCardWidget.tsx:30-42 | the number of thresholds (50, 75, 90) reached, at most 3 |
| `CreditCardWidget.ColorBands` | src/features/creditCards/CreditCardWidget.tsx:30-42 | text and background colours are both decided by the band: green below 50, yellow from 50, orange from 75, red from 90 |
| `CreditCardWidget.BandMonotone` | src/features/creditCards/CreditCardWidget.tsx:30-42 | a higher utilisation never gives a lower band; red from 90, green below 50 |
| `CreditCardWidget.NextMonth` | src/features/creditCards/CreditCardWidget.tsx:21 | setMonth(+1) keeps the day and moves one calendar month on |
| `CreditCardWidget.GetDueDate` | src/features/creditCards/CreditCardWidget.tsx:15-26 | the due day of the current month, moved a month later when that midnight is before now |
| `CreditCardWidget.DueDateAsWrittenSpec` | src/features/creditCards/CreditCardWidget.tsx:15-26 | the date stays in this month exactly when the due day is still ahead or it is exactly midnight on it |
| `CreditCardWidget.DueDaySkipsAMonth` | src/features/creditCards/CreditCardWidget.tsx:18-22 | on the due day after midnight the date moves to next month, so the count is above 3 and "Due soon!" does not show |
| `CreditCardWidget.NextMonthDistance` | src/features/creditCards/CreditCardWidget.tsx:21 | the same day of the next month is at least 28 days later |
| `CreditCardWidget.DueDateSpec` | src/features/creditCards/CreditCardWidget.tsx:15-26 | the corrected due date is the first date on or after today with the due day, so the count is never negative and 0 exactly on the due day |
| `CreditCardWidget.DueSoonOnDueDay` | src/features/creditCards/CreditCardWidget.tsx:117 | "Due soon!" shows for a count <= 3, including 0 on the corrected due day |
| `BillsPage.TypeSplit` | src/features/bills/BillsPage.tsx:36-37 | the 'bill' and 'credit_card_payment' lists are disjoint and together hold every bill |
| `BillsPage.UnpaidPaidPartition` | src/features/bills/BillsPage.tsx:40-43 | the current list is the active tab's type; unpaid and paid partition it and their amounts add up |
| `BillsPage.TabCountSpec` | src/features/bills/BillsPage.tsx:82-93 | each tab's count is the unpaid bills of its type whichever tab is active, and the two counts add to all unpaid bills |
| `BillList.BillUrgencyBands` | src/features/bills/BillList.tsx:25-29 | danger for <= 3 days (overdue included), warning for 4-7, info otherwise |
| `BillList.RowControls` | src/features/bills/BillList.tsx:97-136 | the badge shows only for unpaid bills and reads 'Due Today' for 0, 'Overdue' for negative counts, "Nd" otherwise; Mark Paid shows exactly for an unpaid bill with a handler |
| `UpcomingBillsList.SameUrgency` | src/features/bills/UpcomingBillsList.tsx:14-18 | the same thresholds as the bill list |
| `UpcomingBillsList.UpcomingBadgeNegative` | src/features/bills/UpcomingBillsList.tsx:56 | 'Due Today' for 0, otherwise "Nd", so a past date reads "-Nd" where the bill list says 'Overdue' |
| `UpcomingBillsList.UpcomingViewSpec` | src/features/bills/UpcomingBillsList.tsx:23-68 | the empty state shows exactly for an empty list and the 'View All Bills' button exactly otherwise |
| `ReservedList.DueDateStatusSpec` | src/features/reserved/ReservedList.tsx:22-29 | no status without a due date; overdue before today, due soon for 0-7 days, normal after: exclusive and exhaustive |
| `ReservedPage.FilteredItemsSpec` | src/features/reserved/ReservedPage.tsx:37-39 | 'all' keeps every item; a user keeps exactly that user's items |
| `ReservedPage.TotalReservedByUser` | src/features/reserved/ReservedPage.tsx:42-43 | the total and the count over 'all' are the husband's plus the wife's |
| `ReservedPage.UpcomingDueSpec` | src/features/reserved/ReservedPage.tsx:46-50 | the count of items the list marks due soon (a due date, 0 <= days <= 7); items without a date never count |
| `TabungPage.FilteredTabungSpec` | src/features/tabung/TabungPage.tsx:51-53 | 'all' keeps every goal; a user keeps exactly that user's goals |
| `TabungPage.TabungStats` | src/features/tabung/TabungPage.tsx:56-58 | active + completed = the filtered length, and the household saved total is the husband's plus the wife's |
| `TabungPage.BankBalanceSpec` | src/features/tabung/TabungPage.tsx:61-62 | the current user's role (default 'husband') picks the record, and a missing record gives 0 |
| `TabungCard.CardFigures` | src/features/tabung/TabungCard.tsx:26-85 | missing progress or remaining read as 0; the bar width is min(progress, 100); the Remaining row needs remaining > 0 |
| `TabungCard.CardButtons` | src/features/tabung/TabungCard.tsx:113-122 | Save is disabled exactly for a completed goal; for a saved amount that is not negative, Withdraw is disabled exactly when the withdraw modal's check rejects every number; a negative saved amount leaves Withdraw enabled though every number is rejected |
| `SaveMoneyModal.ValidateForm` | src/features/tabung/SaveMoneyModal.tsx:37-48 | an empty or <= 0 amount gives 'Amount must be greater than 0'; one above the bank balance 'Insufficient bank balance'; equal to the balance is accepted; NaN passes; valid exactly when no error |
| `SaveMoneyModal.HandleSubmit` | src/features/tabung/SaveMoneyModal.tsx:50-65 | nothing is sent without a tabung or with a failed check; a valid form sends the id, the parsed amount and the trimmed reason (empty as undefined); success closes, failure shows the message or 'Failed to save money' |
| `SaveMoneyModal.Remaining` | src/features/tabung/SaveMoneyModal.tsx:77 | max(target - saved, 0): never negative, 0 exactly when the target is reached, and otherwise what completes the target |
| `SaveMoneyModal.NewTotal` | src/features/tabung/SaveMoneyModal.tsx:78 | saved + amount, an empty field counting as 0 and other text giving NaN |
| `SaveMoneyModal.ExceedWarningSpec` | src/features/tabung/SaveMoneyModal.tsx:78-79 | willExceedTarget holds exactly when newTotal > target, and the warning shows exactly for an amount above what remains |
| `SaveMoneyModal.PreviewBank` | src/features/tabung/SaveMoneyModal.tsx:149 | bankBalance - amount, defined exactly for a numeric amount |
| `SaveMoneyModal.PreviewConservesMoney` | src/features/tabung/SaveMoneyModal.tsx:139-149 | for an accepted amount the preview keeps the bank non-negative and the new saved amount plus the new bank balance equals what they held before |
| `WithdrawMoneyModal.ValidateForm` | src/features/tabung/WithdrawMoneyModal.tsx:35-46 | an empty or <= 0 amount gives 'Amount must be greater than 0'; one above savedAmount 'Insufficient saved amount'; the full saved amount is accepted |
| `WithdrawMoneyModal.HandleSubmit` | src/features/tabung/WithdrawMoneyModal.tsx:48-63 | nothing is sent without a tabung or with a failed check; a valid form sends the id, amount and trimmed reason; success closes, failure shows the message |
| `WithdrawMoneyModal.QuickAmount` | src/features/tabung/WithdrawMoneyModal.tsx:71-76 | savedAmount x p / 100 rounded to whole cents, and no change without a tabung |
| `WithdrawMoneyModal.QuickAmountsAccepted` | src/features/tabung/WithdrawMoneyModal.tsx:71-76 | for p in {25, 50, 75, 100} the quick amount never exceeds the saved amount, 100% is exactly it, and from 2 cents up every button's amount is accepted |
| `WithdrawMoneyModal.QuickAmountOfOneCent` | src/features/tabung/WithdrawMoneyModal.tsx:73 | 25% of one cent rounds to 0, which the check rejects |
| `WithdrawMoneyModal.NewAmount` | src/features/tabung/WithdrawMoneyModal.tsx:81 | max(saved - amount, 0): never negative, NaN for text that is not a number |
| `WithdrawMoneyModal.NewAmountAfterAccepted` | src/features/tabung/WithdrawMoneyModal.tsx:81 | for an accepted amount the previewed remainder plus the amount is exactly the saved amount |
| `AddTabungModal.ValidateForm` | src/features/tabung/AddTabungModal.tsx:48-70 | name blank after trim is 'Tabung name is required', over 100 UTF-16 code units untrimmed (a character beyond U+FFFF counts twice) 'Name cannot exceed 100 characters'; target must be > 0; a target date before today is an error; valid exactly when no error |
| `AddTabungModal.Fields` | src/features/tabung/AddTabungModal.tsx:81-85 | the payload leaves out an empty description or date and parses the target |
| `AddTabungModal.AcceptedFields` | src/features/tabung/AddTabungModal.tsx:80-86 | an accepted form submits a trimmed non-empty name of at most 100 UTF-16 code units and a date that is absent or not before today |
| `AddTabungModal.TargetDateCheck` | src/features/tabung/AddTabungModal.tsx:61-66 | for ISO dates the text comparison rejects exactly the dates before today, and today is allowed |
| `AddTabungModal.HandleSubmit` | src/features/tabung/AddTabungModal.tsx:72-93 | a request is sent exactly for an accepted form, carrying the user and the fields; success closes, failure shows the message or 'Failed to create tabung' |
| `EditTabungModal.FormOf` | src/features/tabung/EditTabungModal.tsx:34-44 | the form is filled from the tabung: its name, target, and description and date or empty text |
| `EditTabungModal.UntouchedFormRoundTrip` | src/features/tabung/EditTabungModal.tsx:34-44 | submitting the form untouched sends the tabung's own values back |
| `EditTabungModal.PassedTargetDateBlocksEdit` | src/features/tabung/EditTabungModal.tsx:59-64 | a tabung whose target date has passed cannot be saved without changing the date |
| `EditTabungModal.HandleSubmit` | src/features/tabung/EditTabungModal.tsx:70-90 | no submit without a tabung or with errors; a valid form sends the id and the trimmed fields |
| `AddInstallmentModal.CardHolder` | src/features/creditCards/AddInstallmentModal.tsx:107 | the card's user, else its owner; none exactly when it has neither |
| `AddInstallmentModal.SubmitSpec` | src/features/creditCards/AddInstallmentModal.tsx:57-127 | a plan is sent exactly when a listed card with a holder is chosen, the name is not blank, total > 0, monthly > 0 and count >= 1 (empty or NaN rejected) and \|monthly x count - total\| <= 0.01; the payload has the trimmed name, an empty description as undefined and an unreadable rate as 0 |
| `AddInstallmentModal.FirstFailureWins` | src/features/creditCards/AddInstallmentModal.tsx:66-112 | the error shown is the first guard that fails, in the order card, name, total, monthly, count, consistency, card found, holder |
| `AddInstallmentModal.AutoTotal` | src/features/creditCards/AddInstallmentModal.tsx:137-153 | the total is left alone unless the monthly amount and the count both parse and the count is positive |
| `AddInstallmentModal.MonthlyChanged` | src/features/creditCards/AddInstallmentModal.tsx:137-144 | editing the monthly amount changes only it and the total |
| `AddInstallmentModal.CountChanged` | src/features/creditCards/AddInstallmentModal.tsx:146-153 | editing the count changes only it and the total |
| `AddInstallmentModal.AutoTotalWritten` | src/features/creditCards/AddInstallmentModal.tsx:141-142 | when both parse and the count is positive the total becomes monthly x count to two decimals |
| `AddInstallmentModal.Round2OfProduct` | src/features/creditCards/AddInstallmentModal.tsx:142 | a whole-cent amount times a whole count is whole cents, so rounding to the cent keeps it |
| `AddInstallmentModal.AutoTotalConsistent` | src/features/creditCards/AddInstallmentModal.tsx:141-142 | for a whole-cent monthly amount and a positive count the auto-filled total is exactly their product |
| `AddInstallmentModal.AutoTotalNeverMismatched` | src/features/creditCards/AddInstallmentModal.tsx:92-98 | for any monthly amount and positive count, the auto-filled total passes the consistency check |
| `EditInstallmentModal.FormOf` | src/features/creditCards/EditInstallmentModal.tsx:35-44 | the form is filled with the plan's name, description, numbers and rate |
| `EditInstallmentModal.SubmitSpec` | src/features/creditCards/EditInstallmentModal.tsx:46-83 | an update is sent exactly when the name is not blank, monthly is a number > 0, the count is >= 1 and >= the paid count (equal allowed); the payload has the trimmed name and a rate defaulting to 0 |
| `EditInstallmentModal.NoTotalCheck` | src/features/creditCards/EditInstallmentModal.tsx:46-83 | no total-amount consistency check: the outcome does not depend on the plan's total |
| `EditInstallmentModal.UntouchedFormRoundTrip` | src/features/creditCards/EditInstallmentModal.tsx:35-83 | saving the form as it opened sends the plan's own values back |
| `EditInstallmentModal.SubmitAccepts` | src/features/creditCards/EditInstallmentModal.tsx:77-83 | a form that passes every guard sends the trimmed name and the numbers read |
| `MakeCCPaymentModal.DefaultPaidBy` | src/features/creditCards/MakeCCPaymentModal.tsx:38-47 | the payer defaults to the card's user, falling back to 'husband' |
| `MakeCCPaymentModal.OpenedForm` | src/features/creditCards/MakeCCPaymentModal.tsx:38-47 | on opening, the amount and notes are empty, the date is today and the payer is the default |
| `MakeCCPaymentModal.BankBalance` | src/features/creditCards/MakeCCPaymentModal.tsx:49-50 | the payer's bank figure, or 0 when the payer has no record |
| `MakeCCPaymentModal.BankBalanceOfRecord` | src/features/creditCards/MakeCCPaymentModal.tsx:49-50 | with one record per user it is the payer's own record's bank figure |
| `MakeCCPaymentModal.SubmitSpec` | src/features/creditCards/MakeCCPaymentModal.tsx:56-97 | a payment is sent exactly when there is a card and the amount is a number > 0 no larger than the outstanding balance and the bank balance (equality accepted) |
| `MakeCCPaymentModal.SubmitErrors` | src/features/creditCards/MakeCCPaymentModal.tsx:63-81 | the checks run in order amount, card, outstanding, bank, and the error shown is the first that fails |
| `MakeCCPaymentModal.AcceptedPreview` | src/features/creditCards/MakeCCPaymentModal.tsx:101-103 | newOutstanding = outstanding - amount and newBank = bank - amount, neither negative for an accepted payment |
| `MakeCCPaymentModal.DisabledOnlyWhenRejected` | src/features/creditCards/MakeCCPaymentModal.tsx:266 | the button is disabled when the amount exceeds the bank balance, and then the checks would reject the payment anyway |
| `MakeCCPaymentModal.EnabledButRejected` | src/features/creditCards/MakeCCPaymentModal.tsx:73-76 | an amount over the outstanding balance leaves the button enabled and is rejected on submit |
| `UpdateStatementModal.FormOf` | src/features/creditCards/UpdateStatementModal.tsx:32-40 | the form is filled with the card's statement figures and due date |
| `UpdateStatementModal.SubmitSpec` | src/features/creditCards/UpdateStatementModal.tsx:42-76 | sent exactly when balance and minimum are numbers >= 0, a due date is chosen and minimum <= balance (equality allowed); the numbers and date pass unchanged; the first failed check is reported |
| `UpdateStatementModal.UntouchedFormRoundTrip` | src/features/creditCards/UpdateStatementModal.tsx:32-76 | saving the form untouched sends the card's statement back, and a card without a due date cannot be saved untouched |
| `EditCreditCardModal.FormOf` | src/features/creditCards/EditCreditCardModal.tsx:32-39 | the form is filled with the card's name, bank and limit |
| `EditCreditCardModal.SubmitSpec` | src/features/creditCards/EditCreditCardModal.tsx:41-74 | sent exactly when name and bank are non-blank after trimming and the limit is a number > 0 and >= the outstanding balance (equal allowed); the payload has the trimmed name and bank and the parsed limit |
| `EditCreditCardModal.UntouchedFormRoundTrip` | src/features/creditCards/EditCreditCardModal.tsx:32-74 | saving the form untouched sends the card's own values back |
| `AddExpenseModal.NewForm` | src/features/expenses/AddExpenseModal.tsx:57-65 | a new expense's form: today's date, no amount, groceries, paid by debit, empty texts |
| `AddExpenseModal.FormOf` | src/features/expenses/AddExpenseModal.tsx:47-55 | an edited expense's form holds its own fields, its missing notes as empty text |
| `AddExpenseModal.ValidateForm` | src/features/expenses/AddExpenseModal.tsx:70-100 | one message per bad field: missing or future date, missing or non-positive amount (NaN passes), empty category or method, blank description; valid exactly when there is none |
| `AddExpenseModal.Data` | src/features/expenses/AddExpenseModal.tsx:107-115 | the fields sent: the date, the parsed amount, the chosen category and method, and the acting user (the husband when signed out) |
| `AddExpenseModal.Action` | src/features/expenses/AddExpenseModal.tsx:118-124 | an update of the edited expense's id exactly when one is being edited, else a create, carrying the data |
| `AddExpenseModal.AcceptedData` | src/features/expenses/AddExpenseModal.tsx:70-115 | an accepted form sends a date not after today, a positive amount or NaN, a trimmed non-empty description and notes absent or trimmed and non-empty |
| `AddExpenseModal.FutureDateCheck` | src/features/expenses/AddExpenseModal.tsx:77-79 | for a picked date the text comparison is the calendar one: refused exactly when after today |
| `AddExpenseModal.UntouchedEditRoundTrip` | src/features/expenses/AddExpenseModal.tsx:47-124 | saving an edited expense untouched sends its own fields back, only the adder changing |
| `AddExpenseModal.HandleSubmit` | src/features/expenses/AddExpenseModal.tsx:102-131 | an action is dispatched exactly for an accepted form; a success closes with no errors, a failure shows its message or 'Failed to save expense' |
| `IncomeModal.NewForm` | src/features/income/IncomeModal.tsx:57-64 | a new income's form: today, no amount, a salary, belonging to the signed-in user or the husband |
| `IncomeModal.FormOf` | src/features/income/IncomeModal.tsx:48-55 | an edited income's form holds its own fields, missing notes as empty text |
| `IncomeModal.ValidateForm` | src/features/income/IncomeModal.tsx:69-95 | one message per bad field: missing or future date, missing or non-positive amount (NaN passes), empty source or user; valid exactly when there is none |
| `IncomeModal.Data` | src/features/income/IncomeModal.tsx:102-109 | the fields sent, notes absent exactly when blank, the adder the signed-in user or the husband |
| `IncomeModal.Action` | src/features/income/IncomeModal.tsx:111-118 | an update of the edited income's id exactly when one is being edited, else a create |
| `IncomeModal.NewIncomeBelongsToAdder` | src/features/income/IncomeModal.tsx:57-109 | a new income saved with the user left alone belongs to the one who adds it |
| `IncomeModal.UntouchedEditRoundTrip` | src/features/income/IncomeModal.tsx:48-118 | saving an edited income untouched sends its own fields back, only the adder changing |
| `IncomeModal.HandleSubmit` | src/features/income/IncomeModal.tsx:97-125 | an action is dispatched exactly for an accepted form; a success closes, a failure shows its message or 'Failed to save income' |
| `AddBillModal.NewForm` | src/features/bills/AddBillModal.tsx:49-56 | a new bill's form: no name or amount, due today, not recurring, monthly |
| `AddBillModal.FormOf` | src/features/bills/AddBillModal.tsx:40-47 | an edited bill's form holds its fields, a missing frequency shown as monthly |
| `AddBillModal.ValidateForm` | src/features/bills/AddBillModal.tsx:61-78 | errors for a blank name, a missing or non-positive amount (NaN passes) and a missing due date, and no others; valid exactly when none |
| `AddBillModal.Data` | src/features/bills/AddBillModal.tsx:85-92 | the trimmed name, a frequency exactly for a recurring bill, and the paid flag of the edited bill (false for a new one) |
| `AddBillModal.Action` | src/features/bills/AddBillModal.tsx:94-101 | an update of the edited bill's id exactly when one is being edited, else a create |
| `AddBillModal.PastDueDateAccepted` | src/features/bills/AddBillModal.tsx:61-78 | a due date before today is accepted; only a missing one is refused |
| `AddBillModal.UntouchedEditRoundTrip` | src/features/bills/AddBillModal.tsx:40-101 | saving an edited bill untouched sends its own fields back |
| `AddBillModal.NonRecurringDropsFrequency` | src/features/bills/AddBillModal.tsx:89-90 | saving a non-recurring bill clears a stored frequency |
| `AddBillModal.HandleSubmit` | src/features/bills/AddBillModal.tsx:80-108 | an action is dispatched exactly for an accepted form; a success closes, a failure shows its message or 'Failed to save bill' |
| `PayBillModal.SuggestedCategory` | src/features/bills/PayBillModal.tsx:44-51 | the suggestion is one of rent, credit card, utilities, wifi, car loan or others |
| `PayBillModal.SuggestionOrder` | src/features/bills/PayBillModal.tsx:44-51 | each category is suggested exactly when one of its keywords is in the lower-cased name and no earlier group's is; 'others' when none is |
| `PayBillModal.SuggestionIgnoresCase` | src/features/bills/PayBillModal.tsx:45 | a name and its lower-cased form get the same suggestion |
| `PayBillModal.AccountReadsAsCreditCard` | src/features/bills/PayBillModal.tsx:48 | a name containing "account" but not "rent" is suggested as a credit card bill, because "cc" is matched inside words |
| `PayBillModal.FormFor` | src/features/bills/PayBillModal.tsx:40-59 | the form opens on debit and the suggested category |
| `PayBillModal.ErrorsAfter` | src/features/bills/PayBillModal.tsx:61-74 | without a bill the errors stay; otherwise the object holds the one failed field alone |
| `PayBillModal.SubmitSpec` | src/features/bills/PayBillModal.tsx:61-84 | a bill is marked paid exactly when there is one and both selects hold a value; the request has the bill's id, the two values and the acting user |
| `PayBillModal.OpenedFormSubmits` | src/features/bills/PayBillModal.tsx:40-84 | the form as it opens always submits: paid by debit under the suggested category |
| `PayBillModal.HandleSubmit` | src/features/bills/PayBillModal.tsx:61-91 | the request is sent exactly when the checks pass; a success closes, a failure shows its message or 'Failed to mark bill as paid' |
| `DepositModal.ValidateForm` | src/features/reserved/DepositModal.tsx:37-48 | a missing or non-positive amount, or else one above the reserved amount, is the single amount error; NaN passes |
| `DepositModal.HandleSubmit` | src/features/reserved/DepositModal.tsx:50-68 | the deposit of the item's id and the parsed amount is sent exactly with an item and an accepted amount; a success closes, a failure shows its message |
| `DepositModal.AcceptedPreview` | src/features/reserved/DepositModal.tsx:84-86 | for an accepted amount the deposit and the remainder add up to the reserved amount, the remainder is not negative, and the deposit is full exactly when nothing remains |
| `DepositModal.FullAmountDeposits` | src/features/reserved/DepositModal.tsx:29-35 | the amount the modal opens with is accepted and deposits everything |
| `DepositModal.NotANumberSent` | src/features/reserved/DepositModal.tsx:37-48 | text that is not a number passes the checks, shows no preview and is sent as NaN |
| `AddReservedModal.ValidateForm` | src/features/reserved/AddReservedModal.tsx:46-66 | errors for a blank purpose, a missing or non-positive amount (NaN passes) and a due date before today, and no others; valid exactly when none |
| `AddReservedModal.DueDateOrNone` | src/features/reserved/AddReservedModal.tsx:78 | an empty due date is left out, any other is sent as typed |
| `AddReservedModal.Request` | src/features/reserved/AddReservedModal.tsx:73-80 | the request holds the page's user, the trimmed purpose, the parsed amount and the due date or none |
| `AddReservedModal.AcceptedRequest` | src/features/reserved/AddReservedModal.tsx:46-80 | an accepted form sends a trimmed non-empty purpose, a positive amount or NaN and a due date absent or not before today |
| `AddReservedModal.PastDueDateCheck` | src/features/reserved/AddReservedModal.tsx:58-62 | for a picked date the text check is the calendar one, and today itself is accepted |
| `AddReservedModal.EmptyFormRefused` | src/features/reserved/AddReservedModal.tsx:26-66 | the empty form is refused for its purpose and amount |
| `AddReservedModal.HandleSubmit` | src/features/reserved/AddReservedModal.tsx:68-88 | the item is sent exactly for an accepted form; a success closes, a failure shows its message |
| `EditReservedModal.FormOf` | src/features/reserved/EditReservedModal.tsx:33-42 | the form holds the item's fields, no due date as empty text |
| `EditReservedModal.Update` | src/features/reserved/EditReservedModal.tsx:72-80 | the update names the item's id, the trimmed purpose, the parsed amount and the due date or none |
| `EditReservedModal.UntouchedFormRoundTrip` | src/features/reserved/EditReservedModal.tsx:33-80 | saving an item untouched sends its own fields back |
| `EditReservedModal.OverdueItemNeedsNewDate` | src/features/reserved/EditReservedModal.tsx:44-64 | an item whose due date has passed cannot be saved without changing or clearing the date |
| `EditReservedModal.HandleSubmit` | src/features/reserved/EditReservedModal.tsx:66-88 | the update is sent exactly with an item and an accepted form; a success closes, a failure shows its message |
| `BalanceCard.TotalAfterEdit` | src/features/balance/BalanceCard.tsx:23 | setting one figure moves the total by that figure's change and leaves the other two alone |
| `BalanceCard.TotalBoundsFields` | src/features/balance/BalanceCard.tsx:23 | with no negative figure the total is at least each of them |
| `BalanceCard.FieldLabelsDistinct` | src/features/balance/BalanceCard.tsx:59-70 | the three labels are different |
| `BalanceCard.EditPermission` | src/features/balance/BalanceCard.tsx:22 | only the owner gets edit buttons, and only for the wallet and bank figures |
| `BalanceCard.Editor.constructor` | src/features/balance/BalanceCard.tsx:16-20 | the editor starts idle and not saving |
| `BalanceCard.Editor.HandleEdit` | src/features/balance/BalanceCard.tsx:25-29 | opens the field with its current figure and an empty reason |
| `BalanceCard.Editor.BeginSave` | src/features/balance/BalanceCard.tsx:31-37 | with a field open and a number >= 0 the save starts and calls onUpdate with the field, value and trimmed reason or none; otherwise nothing happens |
| `BalanceCard.Editor.EndSave` | src/features/balance/BalanceCard.tsx:38-46 | a successful save closes the editor, a failed one keeps the draft; either way saving ends |
| `BalanceCard.Editor.HandleCancel` | src/features/balance/BalanceCard.tsx:51-57 | closes the editor, except while a save runs |
| `BalanceCard.EditAndSaveUntouched` | src/features/balance/BalanceCard.tsx:25-46 | opening a field and saving it untouched calls onUpdate with the figure itself when it is not negative, then leaves the editor idle |
| `BalanceCard.CancelDuringFailedSave` | src/features/balance/BalanceCard.tsx:31-57 | a cancel pressed while a save runs is lost: after a failed save the field is still open |
| `BalanceHistoryList.FieldLabel` | src/features/balance/BalanceHistoryList.tsx:13-24 | the three field names get their labels and any other text is shown as it is |
| `BalanceHistoryList.ChangeReadsBack` | src/features/balance/BalanceHistoryList.tsx:46-72 | the difference is not negative and, with its sign, takes the old value to the new one; '+' exactly for an increase |
| `BalanceHistoryList.UnchangedShowsAsDecrease` | src/features/balance/BalanceHistoryList.tsx:46 | an unchanged value shows as '-' with a zero difference |
| `BalanceHistoryList.FieldLabelsDistinct` | src/features/balance/BalanceHistoryList.tsx:13-24 | every stored field has its own label, different from its raw name |

## Left out

- HTTP and storage plumbing (`apiClient`, `authService` and the `*Service.ts` files) is not part of this model. The slices receive the values the services would return.
- Async thunk lifecycles are left out, as is the refetch-after-mutate sequencing in the pages' handlers. Only the reducer cases and the derived figures are modelled, because the rest is promise sequencing against a backend.
- The `delay`/`mockApiCall` helpers of `mockApi.ts` are left out: they are timers only.
- The `setTimeout` in the income page is left out.
- `Date.now()` ids and `toISOString()` timestamps (`lastUpdated`, `createdAt`, `updatedAt`) are left out, because they are nondeterministic. Ids are parameters.
- Floating point is not modelled: amounts are unbounded reals, so rounding error is out of scope.
- `toFixed(2)` is modelled only where its result is compared (`Round2` on whole cents).
- `formatCurrency` takes whole cents, so rounding from binary fractions is not modelled.
- Parsing is modelled as `FormInput.Parsed`. The exact grammar of `parseFloat`/`parseInt`, such as a number followed by text, is not modelled.
- `formatDate`, `getMonthName` and `formatDateTime` are left out because they depend on the host's `toLocaleDateString('en-MY')`.
- JavaScript `Date` day overflow is left out, e.g. a card due on the 31st in a 30-day month. `CreditCardWidget` takes due days of 1-28 and years up to 9998, so that the four-digit ISO text is always defined.
- The request-failure message in the five credit-card modals (AddInstallment, EditInstallment, MakeCCPayment, UpdateStatement, EditCreditCard) is left out. Their models stop at the request that is sent, because a failure there only sets the error text.
- The pure UI and wiring are not part of this model: the app shell, router and store, the layout, header, sidebar and login page, cards, tabs, skeletons, the plain lists, the transaction history modal, the delete confirmation modals and the quick stats.
- `src/types/index.ts` declares types only. The `Types` module holds the same records and enumerations.
- The model assumes a host whose clock is at UTC. The next three lines name the results that change on other hosts.
- `DateUtils.GetDaysUntilDate` assumes a UTC host. The source reads the date text as UTC midnight (`src/utils/dateUtils.ts:98`) and then moves it to local midnight (line 101), so west of UTC it counts one day less than the model.
- `CreditCardWidget.GetDueDate` assumes a UTC host. East of UTC, `toISOString` of a local midnight (`src/features/creditCards/CreditCardWidget.tsx:25`) names the day before. The days until due then come out one less, so "Due soon!" can show a day early: at UTC+8 a card due on the 15th, viewed on the 11th, shows 3 days where the model gives 4.
- `DateUtils.FormatFinancialMonthRange` assumes a UTC host. At UTC+8 the range's bounds are already a day early, so the source prints "Dec 24, 2024 - Jan 23, 2025" for December 2024. West of UTC it prints the same text, because it reads the ISO texts as UTC midnights and prints local days.
- `AddInstallmentModal.ErrorMessage` takes JavaScript's conversion of a number to text as its parameter `show`, because binary floating point is not modelled.
- `Text.ToLower` lowers only the ASCII letters A-Z. JavaScript's `toLowerCase` also lowers other letters using Unicode's case tables, which are not modelled.
- `DateUtils.GetLastDayOfMonth` takes years 0-99 as they are. JavaScript's `Date` constructor maps them to 1900-1999. The model leaves that out because nothing in the application calls the function.
- `FormInput.Round2` rounds a negative amount that ends in half a cent up, toward zero. `toFixed(2)` rounds it away from zero. The rounded amounts are products of what the user types, and the forms reject amounts that are not positive.
- `IncomePage.GetSourceLabel` treats only the four listed sources as keys of the label table. In JavaScript a source such as "constructor" or "toString" finds a property every object inherits, so it gets that property rather than its own text.
- `DateUtils.FormatCurrencyExamples`: there is no example with seven or more digits (e.g. "RM1,000,000.00"). The general grouping shape is stated by `DateUtils.FormatCurrencyGroups`.

## Findings

| source | as written | input that shows it | evidently intended | confidence | as-written member | corrected member |
|---|---|---|---|---|---|---|
| src/utils/dateUtils.ts:22-34 | the range bounds are local midnights printed with UTC `toISOString` | financial month "2024-12" on a host at UTC+8 gives "2024-12-24" to "2025-01-23"; on 24 January 2025 `getCurrentFinancialMonth` names "2024-12", so records dated that day fall outside the current month's range | the 25th to the 24th of the next month, whatever the host's time zone | not executed | `DateUtils.RangeOnHostEastOfUtc` | `DateUtils.FinancialMonthRangeSpec` |
| src/features/creditCards/CreditCardWidget.tsx:15-26 | the due date is this month's due day at local midnight, moved a month on when that instant is before now | a card due on the 15th, viewed at 09:00 on the 15th, shows next month's 15th, more than 3 days away, and no "Due soon!" | the due day counts as due today until the day is over | not executed | `CreditCardWidget.DueDaySkipsAMonth` | `CreditCardWidget.DueDateSpec` |
