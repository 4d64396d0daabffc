/**
 * src/features/expenses/ExpensesPage.tsx: the approved/pending split, the
 * approved total, the per-category breakdown, the five largest categories
 * and the average per day.
 */
module ExpensesPage {

  import opened Wrappers
  import opened Types
  import opened Lists
  import opened Dashboard

  function IsApproved(e: Expense): bool { e.status == Approved }

  function IsPending(e: Expense): bool { e.status == Pending }

  function IsRejected(e: Expense): bool { e.status == Rejected }

  /** approvedExpenses (line 77). */
  function ApprovedExpenses(expenses: seq<Expense>): seq<Expense>
  {
    Filter(expenses, IsApproved)
  }

  /** pendingExpenses (line 78). */
  function PendingExpenses(expenses: seq<Expense>): seq<Expense>
  {
    Filter(expenses, IsPending)
  }

  /** Every expense is in exactly one of the approved list, the pending list and the (unshown) rejected ones. */
  lemma StatusSplit(expenses: seq<Expense>)
    ensures |ApprovedExpenses(expenses)| + |PendingExpenses(expenses)| + |Filter(expenses, IsRejected)| == |expenses|
    ensures forall e | e in expenses && e.status == Rejected :: e !in ApprovedExpenses(expenses) && e !in PendingExpenses(expenses)
  {
    var notApproved := (e: Expense) => e.status != Approved;
    FilterPartition(expenses, IsApproved, notApproved);
    FilterConj(expenses, notApproved, IsPending, IsPending);
    FilterConj(expenses, notApproved, IsRejected, IsRejected);
    var rest := Filter(expenses, notApproved);
    assert forall j | 0 <= j < |rest| :: notApproved(rest[j]);
    FilterPartition(rest, IsPending, IsRejected);
  }

  /** totalExpenses (line 81). */
  function TotalExpenses(expenses: seq<Expense>): real
  {
    SumOf(ApprovedExpenses(expenses), ExpenseAmount)
  }

  // ---------------------------------------------------------------------
  // Category breakdown

  /** The approved amount of one category. */
  function CategoryTotal(s: seq<Expense>, c: ExpenseCategory): real
  {
    SumOf(Filter(s, (e: Expense) => e.category == c), ExpenseAmount)
  }

  /** An entry of the breakdown record; `Object.entries` lists them in insertion order. */
  datatype Entry = Entry(category: ExpenseCategory, amount: real)

  function EntryCategory(x: Entry): ExpenseCategory { x.category }

  function EntryAmount(x: Entry): real { x.amount }

  /** Appending an expense adds its amount to its own category and to no other. */
  lemma CategoryTotalStep(s: seq<Expense>, e: Expense, c: ExpenseCategory)
    ensures CategoryTotal(s + [e], c) == CategoryTotal(s, c) + (if e.category == c then e.amount else 0.0)
  {
    var p := (x: Expense) => x.category == c;
    assert (s + [e])[..|s|] == s;
    assert Filter(s + [e], p) == Filter(s, p) + (if p(e) then [e] else []);
    SumAppend(Filter(s, p), if p(e) then [e] else [], ExpenseAmount);
  }

  /** A category that does not occur has total zero. */
  lemma BreakdownNewEntry(s: seq<Expense>, c: ExpenseCategory)
    requires forall k | 0 <= k < |s| :: s[k].category != c
    ensures CategoryTotal(s, c) == 0.0
  {
    FilterNone(s, (e: Expense) => e.category == c);
  }

  /** Some entry of the accumulator is for category `c`. */
  predicate Listed(acc: seq<Entry>, c: ExpenseCategory)
  {
    exists j | 0 <= j < |acc| :: acc[j].category == c
  }

  /** Some expense of `s` is in category `c`. */
  predicate Occurs(s: seq<Expense>, c: ExpenseCategory)
  {
    exists k | 0 <= k < |s| :: s[k].category == c
  }

  /** What the accumulator holds after a prefix `s` of the approved list. */
  predicate BreakdownOf(acc: seq<Entry>, s: seq<Expense>)
  {
    && UniqueKeys(acc, EntryCategory)
    && (forall j | 0 <= j < |acc| :: acc[j].amount == CategoryTotal(s, acc[j].category))
    && (forall c :: Listed(acc, c) <==> Occurs(s, c))
    && SumOf(acc, EntryAmount) == SumOf(s, ExpenseAmount)
  }

  /** One step of the reduce: a first occurrence starts at zero, and the amount is added. */
  function AddExpense(acc: seq<Entry>, e: Expense): seq<Entry>
  {
    var k := FindIndex(acc, EntryCategory, e.category);
    if k == -1 then acc + [Entry(e.category, 0.0 + e.amount)]
    else acc[k := Entry(e.category, acc[k].amount + e.amount)]
  }

  lemma BreakdownStep(acc: seq<Entry>, s: seq<Expense>, e: Expense, next: seq<Entry>, t: seq<Expense>)
    requires BreakdownOf(acc, s)
    requires next == AddExpense(acc, e) && t == s + [e]
    ensures BreakdownOf(next, t)
  {
    BreakdownStepKeys(acc, s, e);
    BreakdownStepAmounts(acc, s, e);
    BreakdownStepSum(acc, s, e);
  }

  lemma BreakdownStepKeys(acc: seq<Entry>, s: seq<Expense>, e: Expense)
    requires UniqueKeys(acc, EntryCategory)
    requires forall c :: Listed(acc, c) <==> Occurs(s, c)
    ensures UniqueKeys(AddExpense(acc, e), EntryCategory)
    ensures forall c :: Listed(AddExpense(acc, e), c) <==> Occurs(s + [e], c)
  {
    var r := AddExpense(acc, e);
    var k := FindIndex(acc, EntryCategory, e.category);
    if k == -1 {
      AppendKeepsUnique(acc, EntryCategory, Entry(e.category, 0.0 + e.amount));
    } else {
      forall i, j | 0 <= i < j < |r| ensures EntryCategory(r[i]) != EntryCategory(r[j]) {
        assert EntryCategory(r[i]) == EntryCategory(acc[i]) && EntryCategory(r[j]) == EntryCategory(acc[j]);
      }
    }
    forall c ensures Listed(r, c) <==> Occurs(s + [e], c) {
      var t := s + [e];
      if Occurs(t, c) {
        var i :| 0 <= i < |t| && t[i].category == c;
        if i < |s| {
          assert s[i].category == c;
          assert Listed(acc, c);
          var j :| 0 <= j < |acc| && acc[j].category == c;
          assert r[j].category == c;
        } else if k == -1 {
          assert r[|acc|].category == c;
        } else {
          assert r[k].category == c;
        }
      }
      if Listed(r, c) {
        var j :| 0 <= j < |r| && r[j].category == c;
        if j < |acc| && (k == -1 || j != k) {
          assert acc[j].category == c;
          assert Occurs(s, c);
          var i :| 0 <= i < |s| && s[i].category == c;
          assert t[i].category == c;
        } else {
          assert t[|s|].category == c;
        }
      }
    }
  }

  lemma BreakdownStepAmounts(acc: seq<Entry>, s: seq<Expense>, e: Expense)
    requires UniqueKeys(acc, EntryCategory)
    requires forall j | 0 <= j < |acc| :: acc[j].amount == CategoryTotal(s, acc[j].category)
    requires forall c :: Listed(acc, c) <==> Occurs(s, c)
    ensures forall j | 0 <= j < |AddExpense(acc, e)| ::
      AddExpense(acc, e)[j].amount == CategoryTotal(s + [e], AddExpense(acc, e)[j].category)
  {
    var k := FindIndex(acc, EntryCategory, e.category);
    if k == -1 {
      assert !Listed(acc, e.category);
      BreakdownNewEntry(s, e.category);
      AmountsAfterAppend(acc, s, e, AddExpense(acc, e));
    } else {
      AmountsAfterUpdate(acc, s, e, k, AddExpense(acc, e));
    }
  }

  /** A first occurrence of the category appends an entry that holds just its amount. */
  lemma AmountsAfterAppend(acc: seq<Entry>, s: seq<Expense>, e: Expense, r: seq<Entry>)
    requires forall j | 0 <= j < |acc| :: acc[j].amount == CategoryTotal(s, acc[j].category)
    requires forall j | 0 <= j < |acc| :: acc[j].category != e.category
    requires CategoryTotal(s, e.category) == 0.0
    requires r == acc + [Entry(e.category, 0.0 + e.amount)]
    ensures forall j | 0 <= j < |r| :: r[j].amount == CategoryTotal(s + [e], r[j].category)
  {
    forall j | 0 <= j < |r| ensures r[j].amount == CategoryTotal(s + [e], r[j].category) {
      CategoryTotalStep(s, e, r[j].category);
      if j < |acc| {
        assert r[j] == acc[j];
      }
    }
  }

  /** A later occurrence adds the amount to the entry at `k` and leaves the others alone. */
  lemma AmountsAfterUpdate(acc: seq<Entry>, s: seq<Expense>, e: Expense, k: int, r: seq<Entry>)
    requires UniqueKeys(acc, EntryCategory)
    requires forall j | 0 <= j < |acc| :: acc[j].amount == CategoryTotal(s, acc[j].category)
    requires 0 <= k < |acc| && acc[k].category == e.category
    requires r == acc[k := Entry(e.category, acc[k].amount + e.amount)]
    ensures forall j | 0 <= j < |r| :: r[j].amount == CategoryTotal(s + [e], r[j].category)
  {
    forall j | 0 <= j < |r| ensures r[j].amount == CategoryTotal(s + [e], r[j].category) {
      CategoryTotalStep(s, e, r[j].category);
      if j != k {
        assert EntryCategory(acc[j]) != EntryCategory(acc[k]);
      }
    }
  }

  lemma BreakdownStepSum(acc: seq<Entry>, s: seq<Expense>, e: Expense)
    requires SumOf(acc, EntryAmount) == SumOf(s, ExpenseAmount)
    ensures SumOf(AddExpense(acc, e), EntryAmount) == SumOf(s + [e], ExpenseAmount)
  {
    var k := FindIndex(acc, EntryCategory, e.category);
    SumAppend(s, [e], ExpenseAmount);
    assert SumOf([e], ExpenseAmount) == e.amount by {
      assert [e][..0] == [];
    }
    if k == -1 {
      var x := Entry(e.category, 0.0 + e.amount);
      SumAppend(acc, [x], EntryAmount);
      assert SumOf([x], EntryAmount) == x.amount by {
        assert [x][..0] == [];
      }
    } else {
      SumUpdate(acc, k, Entry(e.category, acc[k].amount + e.amount), EntryAmount);
    }
  }

  /** The reduce as a function: each expense of `s`, in order, added with AddExpense. */
  function Breakdown(s: seq<Expense>): seq<Entry>
  {
    if s == [] then [] else AddExpense(Breakdown(s[..|s| - 1]), s[|s| - 1])
  }

  /**
   * The breakdown has one entry per category that occurs, each holding that
   * category's total, and the entries add up to the total of the list.
   */
  lemma {:induction false} BreakdownSpec(s: seq<Expense>)
    ensures BreakdownOf(Breakdown(s), s)
  {
    if s == [] {
    } else {
      var init := s[..|s| - 1];
      BreakdownSpec(init);
      assert init + [s[|s| - 1]] == s;
      BreakdownStep(Breakdown(init), init, s[|s| - 1], Breakdown(s), s);
    }
  }

  /**
   * categoryBreakdown (lines 84-90): one entry per category that occurs, in
   * first-occurrence order, holding that category's total; the entries add
   * up to the total of the list.
   */
  method CategoryBreakdown(approved: seq<Expense>) returns (acc: seq<Entry>)
    ensures acc == Breakdown(approved)
    ensures UniqueKeys(acc, EntryCategory)
    ensures forall j | 0 <= j < |acc| :: acc[j].amount == CategoryTotal(approved, acc[j].category)
    ensures forall c :: Listed(acc, c) <==> Occurs(approved, c)
    ensures SumOf(acc, EntryAmount) == SumOf(approved, ExpenseAmount)
  {
    acc := [];
    for i := 0 to |approved|
      invariant acc == Breakdown(approved[..i])
    {
      var exp := approved[i];
      assert approved[..i + 1][..i] == approved[..i];
      // a first occurrence starts the category at zero; then the amount is added
      var k := FindIndex(acc, EntryCategory, exp.category);
      if k == -1 {
        acc := acc + [Entry(exp.category, 0.0 + exp.amount)];
      } else {
        acc := acc[k := Entry(exp.category, acc[k].amount + exp.amount)];
      }
    }
    assert approved[..|approved|] == approved;
    BreakdownSpec(approved);
  }

  // ---------------------------------------------------------------------
  // The five largest categories

  /** Entries ordered by non-increasing amount. */
  predicate SortedDesc(s: seq<Entry>)
  {
    forall i, j | 0 <= i < j < |s| :: s[i].amount >= s[j].amount
  }

  /** Insert into a list sorted by non-increasing amount, after the entries with the same amount. */
  function InsertDesc(x: Entry, s: seq<Entry>): seq<Entry>
  {
    if s == [] then [x]
    else if s[0].amount >= x.amount then [s[0]] + InsertDesc(x, s[1..])
    else [x] + s
  }

  /** `.sort(([, a], [, b]) => b - a)`, a stable sort by non-increasing amount. */
  function SortDesc(s: seq<Entry>): seq<Entry>
  {
    if s == [] then [] else InsertDesc(s[|s| - 1], SortDesc(s[..|s| - 1]))
  }

  /** Inserting adds exactly the one entry. */
  lemma {:induction false} InsertDescPerm(x: Entry, s: seq<Entry>)
    ensures multiset(InsertDesc(x, s)) == multiset(s) + multiset{x}
  {
    if s != [] && s[0].amount >= x.amount {
      InsertDescPerm(x, s[1..]);
      assert s == [s[0]] + s[1..];
    }
  }

  /** Inserting into an ordered list keeps it ordered. */
  lemma {:induction false} InsertDescSorted(x: Entry, s: seq<Entry>)
    requires SortedDesc(s)
    ensures SortedDesc(InsertDesc(x, s))
  {
    if s != [] && s[0].amount >= x.amount {
      var t := InsertDesc(x, s[1..]);
      InsertDescSorted(x, s[1..]);
      InsertDescPerm(x, s[1..]);
      forall i | 0 <= i < |t| ensures t[i].amount <= s[0].amount {
        assert t[i] in multiset(t);
        if t[i] != x {
          assert t[i] in multiset(s[1..]);
          var k :| 0 <= k < |s[1..]| && s[1..][k] == t[i];
          assert s[k + 1] == t[i];
        }
      }
    }
  }

  /** The sort orders by non-increasing amount and is a permutation. */
  lemma {:induction false} SortDescSpec(s: seq<Entry>)
    ensures SortedDesc(SortDesc(s))
    ensures multiset(SortDesc(s)) == multiset(s)
  {
    if s != [] {
      SortDescSpec(s[..|s| - 1]);
      InsertDescPerm(s[|s| - 1], SortDesc(s[..|s| - 1]));
      InsertDescSorted(s[|s| - 1], SortDesc(s[..|s| - 1]));
      assert s == s[..|s| - 1] + [s[|s| - 1]];
    }
  }

  /** topCategories (lines 92-94). */
  function TopCategories(breakdown: seq<Entry>): seq<Entry>
  {
    var sorted := SortDesc(breakdown);
    if |sorted| <= 5 then sorted else sorted[..5]
  }

  /**
   * At most five entries, in non-increasing order, all from the breakdown;
   * and every entry left out is no larger than the last one kept.
   */
  lemma TopCategoriesSpec(breakdown: seq<Entry>)
    ensures |TopCategories(breakdown)| == if |breakdown| <= 5 then |breakdown| else 5
    ensures SortedDesc(TopCategories(breakdown))
    ensures forall x | x in TopCategories(breakdown) :: x in breakdown
    ensures forall x | x in breakdown && x !in TopCategories(breakdown) ::
      x.amount <= TopCategories(breakdown)[|TopCategories(breakdown)| - 1].amount
  {
    var sorted := SortDesc(breakdown);
    var top := TopCategories(breakdown);
    SortDescSpec(breakdown);
    assert |sorted| == |multiset(sorted)| == |multiset(breakdown)| == |breakdown|;
    forall x | x in top ensures x in breakdown {
      assert x in multiset(sorted);
    }
    forall x | x in breakdown && x !in top ensures x.amount <= top[|top| - 1].amount {
      assert x in multiset(breakdown);
      assert x in sorted;
      var k :| 0 <= k < |sorted| && sorted[k] == x;
      assert k >= 5;
      assert sorted[4] == top[4];
    }
  }

  // ---------------------------------------------------------------------

  /** The "Average per Day" figure (line 146). */
  function AveragePerDay(expenses: seq<Expense>): real
  {
    if |ApprovedExpenses(expenses)| > 0 then TotalExpenses(expenses) / 30.0 else 0.0
  }

  /** Whichever branch is taken, thirty days of the average give the month's approved total. */
  lemma AveragePerDaySpec(expenses: seq<Expense>)
    ensures AveragePerDay(expenses) * 30.0 == TotalExpenses(expenses)
    ensures ApprovedExpenses(expenses) == [] ==> AveragePerDay(expenses) == 0.0
  {
  }
}
