/**
 * src/features/bills/BillsPage.tsx: the split of bills by type, the active
 * tab's unpaid and paid lists, the unpaid total and the tab counts.
 */
module BillsPage {

  import opened Types
  import opened Lists

  /** The two tabs of the page. */
  datatype Tab = BillsTab | CcPaymentsTab

  function IsRegular(b: Bill): bool { b.billType == RegularBill }

  function IsCcPayment(b: Bill): bool { b.billType == CreditCardPaymentBill }

  function IsUnpaid(b: Bill): bool { !b.isPaid }

  function IsPaid(b: Bill): bool { b.isPaid }

  function BillAmount(b: Bill): real { b.amount }

  /** regularBills (line 36). */
  function RegularBills(bills: seq<Bill>): seq<Bill>
  {
    Filter(bills, IsRegular)
  }

  /** ccPayments (line 37). */
  function CcPayments(bills: seq<Bill>): seq<Bill>
  {
    Filter(bills, IsCcPayment)
  }

  /** currentBills (line 40): the list of the active tab. */
  function CurrentBills(bills: seq<Bill>, activeTab: Tab): seq<Bill>
  {
    if activeTab == BillsTab then RegularBills(bills) else CcPayments(bills)
  }

  /** unpaidBills (line 41). */
  function UnpaidBills(current: seq<Bill>): seq<Bill>
  {
    Filter(current, IsUnpaid)
  }

  /** paidBills (line 43). */
  function PaidBills(current: seq<Bill>): seq<Bill>
  {
    Filter(current, IsPaid)
  }

  /** totalUnpaid (line 42). */
  function TotalUnpaid(current: seq<Bill>): real
  {
    SumOf(UnpaidBills(current), BillAmount)
  }

  /** The count shown on a tab (lines 82-93): the unpaid bills of that tab's type. */
  function TabCount(bills: seq<Bill>, tab: Tab): nat
  {
    if tab == BillsTab then |Filter(RegularBills(bills), IsUnpaid)| else |Filter(CcPayments(bills), IsUnpaid)|
  }

  /** The two type lists are disjoint and between them hold every bill. */
  lemma TypeSplit(bills: seq<Bill>)
    ensures forall b | b in RegularBills(bills) :: b !in CcPayments(bills)
    ensures |RegularBills(bills)| + |CcPayments(bills)| == |bills|
  {
    TypesPartition(bills);
  }

  /**
   * The active list is the one for the tab, and its unpaid and paid lists
   * partition it: each bill of the list is in exactly one of them; the unpaid
   * total and the paid amounts add up to the list's total.
   */
  lemma UnpaidPaidPartition(bills: seq<Bill>, activeTab: Tab)
    ensures forall b :: b in CurrentBills(bills, activeTab) <==>
      b in bills && (if activeTab == BillsTab then IsRegular(b) else IsCcPayment(b))
    ensures forall b | b in CurrentBills(bills, activeTab) ::
      (b in UnpaidBills(CurrentBills(bills, activeTab))) != (b in PaidBills(CurrentBills(bills, activeTab)))
    ensures |UnpaidBills(CurrentBills(bills, activeTab))| + |PaidBills(CurrentBills(bills, activeTab))|
      == |CurrentBills(bills, activeTab)|
    ensures TotalUnpaid(CurrentBills(bills, activeTab)) + SumOf(PaidBills(CurrentBills(bills, activeTab)), BillAmount)
      == SumOf(CurrentBills(bills, activeTab), BillAmount)
  {
    var current := CurrentBills(bills, activeTab);
    var p := if activeTab == BillsTab then IsRegular else IsCcPayment;
    forall b ensures b in current <==> b in bills && p(b) {
      FilterMember(bills, p, b);
    }
    forall b | b in current ensures (b in UnpaidBills(current)) != (b in PaidBills(current)) {
      FilterMember(current, IsUnpaid, b);
      FilterMember(current, IsPaid, b);
    }
    FilterPartition(current, IsUnpaid, IsPaid);
    SumPartition(current, IsUnpaid, IsPaid, BillAmount);
  }

  /**
   * Whichever tab is active, a tab's count is the size of that tab's unpaid
   * list, and the two counts add up to all unpaid bills.
   */
  lemma TabCountSpec(bills: seq<Bill>, tab: Tab)
    ensures TabCount(bills, tab) == |UnpaidBills(CurrentBills(bills, tab))|
    ensures TabCount(bills, BillsTab) + TabCount(bills, CcPaymentsTab) == |Filter(bills, IsUnpaid)|
  {
    TabCountsAddUp(bills);
  }

  lemma TabCountsAddUp(bills: seq<Bill>)
    ensures TabCount(bills, BillsTab) + TabCount(bills, CcPaymentsTab) == |Filter(bills, IsUnpaid)|
  {
    var unpaid := Filter(bills, IsUnpaid);
    UnpaidOfType(bills, IsRegular);
    assert TabCount(bills, BillsTab) == |Filter(unpaid, IsRegular)|;
    UnpaidOfType(bills, IsCcPayment);
    assert TabCount(bills, CcPaymentsTab) == |Filter(unpaid, IsCcPayment)|;
    TypesPartition(unpaid);
  }

  /** Every bill is of exactly one of the two types. */
  lemma TypesPartition(s: seq<Bill>)
    ensures |Filter(s, IsRegular)| + |Filter(s, IsCcPayment)| == |s|
  {
    FilterPartition(s, IsRegular, IsCcPayment);
  }

  /** Taking the unpaid bills of one type is the same list as taking that type of the unpaid bills. */
  lemma UnpaidOfType(bills: seq<Bill>, p: Bill -> bool)
    ensures Filter(Filter(bills, p), IsUnpaid) == Filter(Filter(bills, IsUnpaid), p)
  {
    var both := (b: Bill) => IsUnpaid(b) && p(b);
    FilterConj(bills, IsUnpaid, p, both);
    FilterConj(bills, p, IsUnpaid, both);
  }
}
