/**
 * The parts of the JavaScript `Date` built-in the application relies on,
 * over the proleptic Gregorian calendar: calendar dates, their `YYYY-MM-DD`
 * ISO text (what `toISOString().split('T')[0]` yields and what `new Date(s)`
 * reads), day numbers, and millisecond timestamps at a day's start.
 * Time zones are not part of this module: the application is modelled on a
 * host whose clock is at UTC, and DateUtils shows what an offset does to the
 * financial month range.
 */
module Calendar {

  import opened Wrappers
  import opened Text

  /** A calendar date; `month` is 1-based (JavaScript's `getMonth() + 1`). */
  datatype Date = Date(year: int, month: int, day: int)

  predicate IsLeapYear(y: int)
  {
    y % 4 == 0 && (y % 100 != 0 || y % 400 == 0)
  }

  function DaysInMonth(y: int, m: int): (n: int)
    requires 1 <= m <= 12
    ensures 28 <= n <= 31
  {
    if m == 2 then (if IsLeapYear(y) then 29 else 28)
    else if m == 4 || m == 6 || m == 9 || m == 11 then 30
    else 31
  }

  /** A real date whose ISO text has a four-digit year. */
  predicate ValidDate(d: Date)
  {
    1 <= d.year <= 9999 && 1 <= d.month <= 12 && 1 <= d.day <= DaysInMonth(d.year, d.month)
  }

  /** Chronological order. */
  predicate DateLt(a: Date, b: Date)
  {
    a.year < b.year
    || (a.year == b.year && (a.month < b.month || (a.month == b.month && a.day < b.day)))
  }

  predicate DateLe(a: Date, b: Date)
  {
    a == b || DateLt(a, b)
  }

  // ---------------------------------------------------------------------
  // ISO text

  /** `d.toISOString().split('T')[0]` for a UTC date in the years 0 to 9999. */
  function IsoDate(d: Date): (s: string)
    requires 0 <= d.year && 0 <= d.month && 0 <= d.day
    ensures |s| == 10 && s[4] == '-' && s[7] == '-'
  {
    FixedDigits(d.year, 4) + "-" + FixedDigits(d.month, 2) + "-" + FixedDigits(d.day, 2)
  }

  /** The ten characters of an ISO date: four year digits, a dash, two month digits, a dash, two day digits. */
  lemma IsoDateChars(d: Date)
    requires 0 <= d.year < 10000 && 0 <= d.month < 100 && 0 <= d.day < 100
    ensures IsoDate(d) == [DigitChar(d.year / 1000), DigitChar(d.year / 100 % 10), DigitChar(d.year / 10 % 10),
      DigitChar(d.year % 10), '-', DigitChar(d.month / 10), DigitChar(d.month % 10), '-',
      DigitChar(d.day / 10), DigitChar(d.day % 10)]
  {
    FourDigitsChars(d.year);
    TwoDigitsChars(d.month);
    TwoDigitsChars(d.day);
  }

  lemma TwoDigitsChars(n: nat)
    requires n < 100
    ensures FixedDigits(n, 2) == [DigitChar(n / 10), DigitChar(n % 10)]
  {
    var t := n / 10;
    assert t < 10 && t / 10 == 0 && t % 10 == t;
    assert FixedDigits(t, 1) == FixedDigits(t / 10, 0) + [DigitChar(t % 10)];
  }

  lemma FourDigitsChars(n: nat)
    requires n < 10000
    ensures FixedDigits(n, 4) == [DigitChar(n / 1000), DigitChar(n / 100 % 10), DigitChar(n / 10 % 10), DigitChar(n % 10)]
  {
    var t, h := n / 10, n / 100;
    assert t / 10 == h && h / 10 == n / 1000 && h < 100;
    TwoDigitsChars(h);
    assert FixedDigits(t, 3) == FixedDigits(h, 2) + [DigitChar(t % 10)];
  }

  /** `new Date(s)` for a date-only string: the date it names, or `None` for an Invalid Date. */
  function ParseIsoDate(s: string): Option<Date>
  {
    if |s| == 10 && s[4] == '-' && s[7] == '-'
       && AllDigits(s[..4]) && AllDigits(s[5..7]) && AllDigits(s[8..])
    then
      var d := Date(DigitsValue(s[..4]), DigitsValue(s[5..7]), DigitsValue(s[8..]));
      if ValidDate(d) then Some(d) else None
    else None
  }

  lemma {:induction false} DigitsRoundTrip(t: string)
    requires AllDigits(t)
    ensures DigitsValue(t) < Pow10(|t|)
    ensures FixedDigits(DigitsValue(t), |t|) == t
  {
    if t != [] {
      var init := t[..|t| - 1];
      DigitsRoundTrip(init);
      var v := DigitsValue(t);
      assert v / 10 == DigitsValue(init) && v % 10 == t[|t| - 1] as int - '0' as int;
      assert DigitChar(v % 10) == t[|t| - 1];
      assert t == init + [t[|t| - 1]];
    }
  }

  lemma IsoDateParts(d: Date)
    requires 0 <= d.year && 0 <= d.month && 0 <= d.day
    ensures IsoDate(d)[..4] == FixedDigits(d.year, 4)
    ensures IsoDate(d)[5..7] == FixedDigits(d.month, 2)
    ensures IsoDate(d)[8..] == FixedDigits(d.day, 2)
  {
  }

  /** Reading back the ISO text of a valid date gives the date. */
  lemma ParseIsoDateRoundTrip(d: Date)
    requires ValidDate(d)
    ensures ParseIsoDate(IsoDate(d)) == Some(d)
  {
    IsoDateParts(d);
    FixedDigitsValue(d.year, 4);
    FixedDigitsValue(d.month, 2);
    FixedDigitsValue(d.day, 2);
  }

  /** The strings `ParseIsoDate` accepts are exactly the ISO texts of valid dates. */
  lemma ParseIsoDateSound(s: string)
    requires ParseIsoDate(s).Some?
    ensures ValidDate(ParseIsoDate(s).value)
    ensures IsoDate(ParseIsoDate(s).value) == s
  {
    DigitsRoundTrip(s[..4]);
    DigitsRoundTrip(s[5..7]);
    DigitsRoundTrip(s[8..]);
    var d := ParseIsoDate(s).value;
    assert s == s[..4] + "-" + s[5..7] + "-" + s[8..];
  }

  /** Two dates with the same ISO text are the same date. */
  lemma IsoDateInjective(a: Date, b: Date)
    requires ValidDate(a) && ValidDate(b) && IsoDate(a) == IsoDate(b)
    ensures a == b
  {
    ParseIsoDateRoundTrip(a);
    ParseIsoDateRoundTrip(b);
  }

  /** String order on ISO texts is chronological order: why the pages may compare date strings. */
  lemma IsoDateOrder(a: Date, b: Date)
    requires ValidDate(a) && ValidDate(b)
    ensures StrLt(IsoDate(a), IsoDate(b)) <==> DateLt(a, b)
  {
    IsoTextOrder(a, b);
  }

  /** The same order for any fields that fit their digit counts. */
  lemma IsoTextOrder(a: Date, b: Date)
    requires 0 <= a.year < 10000 && 0 <= a.month < 100 && 0 <= a.day < 100
    requires 0 <= b.year < 10000 && 0 <= b.month < 100 && 0 <= b.day < 100
    ensures StrLt(IsoDate(a), IsoDate(b)) <==> DateLt(a, b)
  {
    var ya, yb := FixedDigits(a.year, 4), FixedDigits(b.year, 4);
    var ra, rb := MonthDayText(a.month, a.day), MonthDayText(b.month, b.day);
    IsoDateSplit(a);
    IsoDateSplit(b);
    StrLtConcat(ya, ra, yb, rb);
    assert Pow10(4) == 10000;
    FixedDigitsOrder(a.year, b.year, 4);
    if ya == yb {
      FixedDigitsInjective(a.year, b.year, 4);
      MonthDayOrder(a.month, a.day, b.month, b.day);
    }
  }

  /** An ISO date is its year digits followed by its month-and-day text. */
  lemma IsoDateSplit(d: Date)
    requires 0 <= d.year && 0 <= d.month && 0 <= d.day
    ensures IsoDate(d) == FixedDigits(d.year, 4) + MonthDayText(d.month, d.day)
  {
    var y, m, t := FixedDigits(d.year, 4), FixedDigits(d.month, 2), FixedDigits(d.day, 2);
    assert y + "-" + m + "-" + t == y + ("-" + m + "-" + t);
  }

  /** The part of an ISO date after the year: "-MM-DD". */
  function MonthDayText(month: nat, day: nat): string
  {
    "-" + FixedDigits(month, 2) + "-" + FixedDigits(day, 2)
  }

  lemma MonthDayOrder(ma: nat, da: nat, mb: nat, db: nat)
    requires ma < 100 && da < 100 && mb < 100 && db < 100
    ensures StrLt(MonthDayText(ma, da), MonthDayText(mb, db)) <==> ma < mb || (ma == mb && da < db)
  {
    var sa, sb := FixedDigits(ma, 2), FixedDigits(mb, 2);
    var ta, tb := FixedDigits(da, 2), FixedDigits(db, 2);
    assert MonthDayText(ma, da) == "-" + (sa + ("-" + ta));
    assert MonthDayText(mb, db) == "-" + (sb + ("-" + tb));
    StrLtConcat("-", sa + ("-" + ta), "-", sb + ("-" + tb));
    StrLtIrreflexive("-");
    StrLtConcat(sa, "-" + ta, sb, "-" + tb);
    StrLtConcat("-", ta, "-", tb);
    FixedDigitsOrder(ma, mb, 2);
    FixedDigitsOrder(da, db, 2);
    if sa == sb {
      FixedDigitsInjective(ma, mb, 2);
    }
  }

  // ---------------------------------------------------------------------
  // Day numbers

  function DaysInYear(y: int): int
  {
    if IsLeapYear(y) then 366 else 365
  }

  /** Days in the years 1 to y - 1. */
  function DaysBeforeYear(y: int): int
    requires y >= 1
  {
    var p := y - 1;
    365 * p + p / 4 - p / 100 + p / 400
  }

  /** Days in the months 1 to m - 1 of year y. */
  function DaysBeforeMonth(y: int, m: int): int
    requires 1 <= m <= 13
  {
    if m == 1 then 0 else DaysBeforeMonth(y, m - 1) + DaysInMonth(y, m - 1)
  }

  /** Days since 31 December of year 0: one more for each day later. */
  function DayNumber(d: Date): int
    requires d.year >= 1 && 1 <= d.month <= 12
  {
    DaysBeforeYear(d.year) + DaysBeforeMonth(d.year, d.month) + d.day
  }

  lemma DaysBeforeYearStep(y: int)
    requires y >= 1
    ensures DaysBeforeYear(y + 1) == DaysBeforeYear(y) + DaysInYear(y)
  {
    var p := y - 1;
    DivStep(p, 4);
    DivStep(p, 100);
    DivStep(p, 400);
    LeapDivisors(y);
    var s4 := if y % 4 == 0 then 1 else 0;
    var s100 := if y % 100 == 0 then 1 else 0;
    var s400 := if y % 400 == 0 then 1 else 0;
    assert s4 - s100 + s400 == DaysInYear(y) - 365;
    assert DaysBeforeYear(y + 1) == 365 * p + 365 + (p / 4 + s4) - (p / 100 + s100) + (p / 400 + s400);
  }

  /** A multiple of 400 is a multiple of 100, and a multiple of 100 one of 4. */
  lemma LeapDivisors(y: int)
    ensures y % 400 == 0 ==> y % 100 == 0
    ensures y % 100 == 0 ==> y % 4 == 0
  {
    if y % 400 == 0 {
      var q := y / 400;
      assert y == q * 400;
      assert y == (q * 4) * 100 + 0;
      DivUnique(y, 100, q * 4, 0);
    }
    if y % 100 == 0 {
      var q := y / 100;
      assert y == q * 100;
      assert y == (q * 25) * 4 + 0;
      DivUnique(y, 4, q * 25, 0);
    }
  }

  /** Counting one more number, the multiples of k grow by one exactly when that number is one. */
  lemma DivStep(p: int, k: int)
    requires p >= 0 && k > 0
    ensures (p + 1) / k == p / k + (if (p + 1) % k == 0 then 1 else 0)
  {
    var q, r := p / k, p % k;
    if r == k - 1 {
      DivUnique(p + 1, k, q + 1, 0);
    } else {
      DivUnique(p + 1, k, q, r + 1);
    }
  }

  /** Euclidean division is determined by a quotient and a remainder in range. */
  lemma DivUnique(a: int, k: int, q: int, r: int)
    requires k > 0 && 0 <= r < k && a == q * k + r
    ensures a / k == q && a % k == r
  {
    var q', r' := a / k, a % k;
    assert a == q' * k + r';
    if q > q' {
      MulDistance(q, q', k);
    } else if q < q' {
      MulDistance(q', q, k);
    }
  }

  /** Two different multiples of k are at least k apart. */
  lemma MulDistance(x: int, y: int, k: int)
    requires x > y && k > 0
    ensures x * k >= y * k + k
  {
    assert x * k == (x - y) * k + y * k;
    MulAtLeast(x - y, k);
  }

  lemma {:induction false} MulAtLeast(d: int, k: int)
    requires d >= 1 && k > 0
    ensures d * k >= k
  {
    if d > 1 {
      MulAtLeast(d - 1, k);
      assert d * k == (d - 1) * k + k;
    }
  }

  lemma {:induction false} DaysBeforeYearMonotone(y: int, z: int)
    requires 1 <= y <= z
    ensures DaysBeforeYear(y) <= DaysBeforeYear(z)
    decreases z - y
  {
    if y < z {
      DaysBeforeYearStep(y);
      DaysBeforeYearMonotone(y + 1, z);
    }
  }

  lemma {:induction false} DaysBeforeMonthMonotone(y: int, m: int, n: int)
    requires 1 <= m <= n <= 13
    ensures DaysBeforeMonth(y, m) <= DaysBeforeMonth(y, n)
    decreases n - m
  {
    if m < n {
      DaysBeforeMonthMonotone(y, m, n - 1);
    }
  }

  lemma DaysBeforeMonthWholeYear(y: int)
    ensures DaysBeforeMonth(y, 13) == DaysInYear(y)
  {
    var f := if IsLeapYear(y) then 29 else 28;
    assert DaysBeforeMonth(y, 2) == 31;
    assert DaysBeforeMonth(y, 3) == 31 + f;
    assert DaysBeforeMonth(y, 4) == 62 + f;
    assert DaysBeforeMonth(y, 5) == 92 + f;
    assert DaysBeforeMonth(y, 6) == 123 + f;
    assert DaysBeforeMonth(y, 7) == 153 + f;
    assert DaysBeforeMonth(y, 8) == 184 + f;
    assert DaysBeforeMonth(y, 9) == 215 + f;
    assert DaysBeforeMonth(y, 10) == 245 + f;
    assert DaysBeforeMonth(y, 11) == 276 + f;
    assert DaysBeforeMonth(y, 12) == 306 + f;
  }

  /** Day numbers follow chronological order, so their difference counts days. */
  lemma DayNumberOrder(a: Date, b: Date)
    requires ValidDate(a) && ValidDate(b)
    ensures DateLt(a, b) <==> DayNumber(a) < DayNumber(b)
    ensures a == b <==> DayNumber(a) == DayNumber(b)
  {
    if DateLt(a, b) {
      DayNumberStrict(a, b);
    } else if DateLt(b, a) {
      DayNumberStrict(b, a);
    } else {
      assert a == b;
    }
  }

  /** A valid date's day number lies after the end of the previous year and by the end of its own. */
  lemma WithinItsYear(d: Date)
    requires ValidDate(d)
    ensures DaysBeforeYear(d.year) < DayNumber(d) <= DaysBeforeYear(d.year + 1)
  {
    assert DaysBeforeMonth(d.year, d.month + 1) == DaysBeforeMonth(d.year, d.month) + DaysInMonth(d.year, d.month);
    DaysBeforeMonthMonotone(d.year, 1, d.month);
    DaysBeforeMonthMonotone(d.year, d.month + 1, 13);
    DaysBeforeMonthWholeYear(d.year);
    DaysBeforeYearStep(d.year);
  }

  lemma DayNumberStrict(a: Date, b: Date)
    requires ValidDate(a) && ValidDate(b) && DateLt(a, b)
    ensures DayNumber(a) < DayNumber(b)
  {
    if a.year < b.year {
      WithinItsYear(a);
      WithinItsYear(b);
      DaysBeforeYearMonotone(a.year + 1, b.year);
    } else if a.month < b.month {
      DaysBeforeMonthMonotone(a.year, a.month + 1, b.month);
    }
  }

  // ---------------------------------------------------------------------
  // Timestamps

  const MsPerDay: int := 1000 * 60 * 60 * 24

  /** A local date and time; `msOfDay` is the time since local midnight. */
  datatype DateTime = DateTime(date: Date, msOfDay: int)

  predicate ValidDateTime(t: DateTime)
  {
    ValidDate(t.date) && 0 <= t.msOfDay < MsPerDay
  }

  /** `t.getTime()` up to a constant: milliseconds counted on one local clock. */
  function Timestamp(t: DateTime): int
    requires ValidDateTime(t)
  {
    DayNumber(t.date) * MsPerDay + t.msOfDay
  }

  /** `Math.ceil(a / b)` for integers and a positive divisor. */
  function CeilDiv(a: int, b: int): (q: int)
    requires b > 0
    ensures (q - 1) * b < a <= q * b
  {
    -((-a) / b)
  }

  /** Timestamps follow the order of date and time of day. */
  lemma TimestampOrder(s: DateTime, t: DateTime)
    requires ValidDateTime(s) && ValidDateTime(t)
    ensures Timestamp(s) < Timestamp(t) <==>
      DateLt(s.date, t.date) || (s.date == t.date && s.msOfDay < t.msOfDay)
  {
    DayNumberOrder(s.date, t.date);
    var m, n := DayNumber(s.date), DayNumber(t.date);
    if m < n {
      assert m * MsPerDay + MsPerDay <= n * MsPerDay;
    } else if n < m {
      assert n * MsPerDay + MsPerDay <= m * MsPerDay;
    }
  }
}
