/**
 * src/features/creditCards/CreditCardWidget.tsx: a card's utilisation,
 * available credit and displayed minimum payment, the colour bands of the
 * utilisation, and the next payment due date.
 */
module CreditCardWidget {

  import opened Wrappers
  import opened Types
  import opened Calendar
  import opened DateUtils

  /** utilization (line 11): there is no guard against a zero limit. */
  function Utilization(card: CreditCard): real
    requires card.creditLimit > 0.0
  {
    (card.outstandingBalance / card.creditLimit) * 100.0
  }

  /** availableCredit (line 12). */
  function AvailableCredit(card: CreditCard): real
  {
    card.creditLimit - card.outstandingBalance
  }

  /** minimumPayment (line 13): from the percentage, not the card's stored minimum. */
  function MinimumPayment(card: CreditCard): real
  {
    card.outstandingBalance * (card.minimumPaymentPercent / 100.0)
  }

  /**
   * Utilisation and available credit describe the same split of the limit:
   * the utilisation is the share used, the available credit's share is the
   * rest, and the card is over its limit exactly when no credit is left.
   */
  lemma UtilizationAndAvailable(card: CreditCard)
    requires card.creditLimit > 0.0
    ensures Utilization(card) + AvailableCredit(card) / card.creditLimit * 100.0 == 100.0
    ensures Utilization(card) > 100.0 <==> AvailableCredit(card) < 0.0
    ensures Utilization(card) >= 0.0 <==> card.outstandingBalance >= 0.0
  {
    var l, o := card.creditLimit, card.outstandingBalance;
    assert o / l + (l - o) / l == 1.0;
    if o > l {
      assert o / l > 1.0;
    } else {
      assert o / l <= 1.0;
    }
    if o >= 0.0 {
      assert o / l >= 0.0;
    } else {
      assert o / l < 0.0;
    }
  }

  /**
   * The displayed minimum is a share of the outstanding balance: never above
   * it for a percentage up to 100, and the stored `minimumPayment` field
   * plays no part.
   */
  lemma MinimumPaymentBounds(card: CreditCard, stored: real)
    ensures MinimumPayment(card.(minimumPayment := stored)) == MinimumPayment(card)
    ensures card.outstandingBalance >= 0.0 && 0.0 <= card.minimumPaymentPercent <= 100.0 ==>
      0.0 <= MinimumPayment(card) <= card.outstandingBalance
  {
    var o, p := card.outstandingBalance, card.minimumPaymentPercent / 100.0;
    if o >= 0.0 && 0.0 <= card.minimumPaymentPercent <= 100.0 {
      assert 0.0 <= p <= 1.0;
      assert o * p >= 0.0;
      assert o * (1.0 - p) >= 0.0;
      assert o * p + o * (1.0 - p) == o;
      assert MinimumPayment(card) == o * p;
    }
  }

  // ---------------------------------------------------------------------
  // Colour bands

  /** getUtilizationColor (lines 30-35). */
  function UtilizationColor(u: real): string
  {
    if u >= 90.0 then "text-red-600"
    else if u >= 75.0 then "text-orange-500"
    else if u >= 50.0 then "text-yellow-500"
    else "text-green-600"
  }

  /** getUtilizationBgColor (lines 37-42). */
  function UtilizationBgColor(u: real): string
  {
    if u >= 90.0 then "bg-red-600"
    else if u >= 75.0 then "bg-orange-500"
    else if u >= 50.0 then "bg-yellow-500"
    else "bg-green-600"
  }

  /** The band as the number of thresholds (50, 75, 90) reached. */
  function Band(u: real): (b: nat)
    ensures b <= 3
  {
    (if u >= 50.0 then 1 else 0) + (if u >= 75.0 then 1 else 0) + (if u >= 90.0 then 1 else 0)
  }

  /** The text and background classes of each band, from green to red. */
  const TextClasses: seq<string> := ["text-green-600", "text-yellow-500", "text-orange-500", "text-red-600"]
  const BgClasses: seq<string> := ["bg-green-600", "bg-yellow-500", "bg-orange-500", "bg-red-600"]

  /** Text and background colour are both decided by the band alone. */
  lemma ColorBands(u: real)
    ensures UtilizationColor(u) == TextClasses[Band(u)]
    ensures UtilizationBgColor(u) == BgClasses[Band(u)]
  {
    var b := Band(u);
    if u >= 90.0 {
      assert b == 3;
    } else if u >= 75.0 {
      assert b == 2;
    } else if u >= 50.0 {
      assert b == 1;
    } else {
      assert b == 0;
    }
  }

  /** A higher utilisation never gives a lower band; red is 90 and up, green below 50. */
  lemma BandMonotone(u: real, v: real)
    ensures u <= v ==> Band(u) <= Band(v)
    ensures Band(u) == 3 <==> u >= 90.0
    ensures Band(u) == 0 <==> u < 50.0
  {
  }

  // ---------------------------------------------------------------------
  // Due date

  /** `setMonth(getMonth() + 1)` for a day that exists in every month. */
  function NextMonth(d: Date): (r: Date)
    ensures r.day == d.day
    ensures r.year * 12 + r.month == d.year * 12 + d.month + 1
  {
    if d.month == 12 then Date(d.year + 1, 1, d.day) else Date(d.year, d.month + 1, d.day)
  }

  /**
   * What getDueDate computes at the instant `now`: the due day of the current
   * month at local midnight, moved a month on when that instant is before now.
   */
  function DueDateAsWritten(paymentDueDate: int, now: DateTime): Date
    requires ValidDateTime(now) && 1 <= paymentDueDate <= 28 && now.date.year <= 9998
  {
    var due := Date(now.date.year, now.date.month, paymentDueDate);
    if Timestamp(DateTime(due, 0)) < Timestamp(now) then NextMonth(due) else due
  }

  /** getDueDate (lines 15-26), with the Date object changed in place by setMonth. */
  method GetDueDate(paymentDueDate: int, now: DateTime) returns (due: string)
    requires ValidDateTime(now) && 1 <= paymentDueDate <= 28 && now.date.year <= 9998
    ensures due == IsoDate(DueDateAsWritten(paymentDueDate, now))
  {
    var currentMonth := now.date.month;
    var currentYear := now.date.year;
    var dueDate := DateTime(Date(currentYear, currentMonth, paymentDueDate), 0);
    if Timestamp(dueDate) < Timestamp(now) {
      dueDate := dueDate.(date := NextMonth(dueDate.date));
    }
    due := IsoDate(dueDate.date);
  }

  /**
   * The as-written date is the due day of this month when that day is still
   * ahead, or it is today and the clock reads exactly midnight; otherwise the
   * due day of next month.
   */
  lemma DueDateAsWrittenSpec(paymentDueDate: int, now: DateTime)
    requires ValidDateTime(now) && 1 <= paymentDueDate <= 28 && now.date.year <= 9998
    ensures var r := DueDateAsWritten(paymentDueDate, now);
      ValidDate(r) && r.day == paymentDueDate
      && (r == Date(now.date.year, now.date.month, paymentDueDate) <==>
          now.date.day < paymentDueDate || (now.date.day == paymentDueDate && now.msOfDay == 0))
  {
    var due := Date(now.date.year, now.date.month, paymentDueDate);
    TimestampOrder(DateTime(due, 0), now);
  }

  /**
   * On the due day itself, at any time after midnight, the date moves to the
   * next month: the day count is then positive (at least 28), so the card
   * never reads 0 days or "Due soon!" on the day the payment is due.
   */
  lemma DueDaySkipsAMonth(paymentDueDate: int, now: DateTime)
    requires ValidDateTime(now) && 1 <= paymentDueDate <= 28 && now.date.year <= 9998
    requires now.date.day == paymentDueDate && now.msOfDay > 0
    ensures DueDateAsWritten(paymentDueDate, now) == NextMonth(now.date)
    ensures DaysUntil(IsoDate(DueDateAsWritten(paymentDueDate, now)), now.date).Some?
    ensures DaysUntil(IsoDate(DueDateAsWritten(paymentDueDate, now)), now.date).value > 3
  {
    var r := DueDateAsWritten(paymentDueDate, now);
    DueDateAsWrittenSpec(paymentDueDate, now);
    NextMonthDistance(now.date);
    ParseIsoDateRoundTrip(r);
  }

  /** The same day of the next month lies at least 28 days later. */
  lemma NextMonthDistance(d: Date)
    requires ValidDate(d) && d.day <= 28 && d.year <= 9998
    ensures ValidDate(NextMonth(d))
    ensures DayNumber(NextMonth(d)) - DayNumber(d) >= 28
  {
    if d.month == 12 {
      DaysBeforeYearStep(d.year);
      DaysBeforeMonthWholeYear(d.year);
    }
  }

  /**
   * The due date compared by calendar day, as the comparison is evidently
   * meant: the due day of this month unless it has already passed.
   */
  function DueDate(paymentDueDate: int, today: Date): Date
    requires ValidDate(today) && 1 <= paymentDueDate <= 28 && today.year <= 9998
  {
    var due := Date(today.year, today.month, paymentDueDate);
    if DateLt(due, today) then NextMonth(due) else due
  }

  /**
   * The corrected due date is the first day on or after today that falls on
   * the due day of a month: so the count reads 0 exactly on the due day and is
   * never negative.
   */
  lemma DueDateSpec(paymentDueDate: int, today: Date)
    requires ValidDate(today) && 1 <= paymentDueDate <= 28 && today.year <= 9998
    ensures var r := DueDate(paymentDueDate, today);
      ValidDate(r) && r.day == paymentDueDate && DateLe(today, r)
      && (forall d | ValidDate(d) && d.day == paymentDueDate && DateLe(today, d) :: DateLe(r, d))
    ensures DaysUntil(IsoDate(DueDate(paymentDueDate, today)), today).Some?
    ensures var n := DaysUntil(IsoDate(DueDate(paymentDueDate, today)), today).value;
      n >= 0 && (n == 0 <==> today.day == paymentDueDate)
  {
    var r := DueDate(paymentDueDate, today);
    DaysUntilSign(r, today);
  }

  /** The "Due soon!" note (line 117). */
  function DueSoon(daysUntilDue: int): bool
  {
    daysUntilDue <= 3
  }

  /** On the corrected date the note shows for the last four days before the due day, and on it. */
  lemma DueSoonOnDueDay(paymentDueDate: int, today: Date)
    requires ValidDate(today) && 1 <= paymentDueDate <= 28 && today.year <= 9998
    requires today.day == paymentDueDate
    ensures DaysUntil(IsoDate(DueDate(paymentDueDate, today)), today) == Some(0)
    ensures DueSoon(0) && !DueSoon(4)
  {
    DueDateSpec(paymentDueDate, today);
  }
}
