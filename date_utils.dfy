/**
 * src/utils/dateUtils.ts: the financial month (the 25th of one month to the
 * 24th of the next), its `YYYY-MM` identifier, range, name and display text,
 * currency text, last day of a month, and days until a date.
 *
 * The current date is a parameter wherever the source reads the clock.
 */
module DateUtils {

  import opened Wrappers
  import opened Text
  import opened Calendar

  const ShortMonthNames: seq<string> :=
    ["Jan", "Feb", "Mar", "Apr", "May", "Jun", "Jul", "Aug", "Sep", "Oct", "Nov", "Dec"]

  const LongMonthNames: seq<string> :=
    ["January", "February", "March", "April", "May", "June", "July", "August",
     "September", "October", "November", "December"]

  // ---------------------------------------------------------------------
  // The YYYY-MM identifier

  /** A financial month, named by the calendar month in which it starts. */
  datatype YearMonth = YearMonth(year: int, month: int)

  /** A month whose range (which ends in the next year for December) has four-digit ISO years. */
  predicate ValidYearMonth(ym: YearMonth)
  {
    1 <= ym.year <= 9998 && 1 <= ym.month <= 12
  }

  /** `${year}-${String(month).padStart(2, '0')}`. */
  function FormatYearMonth(ym: YearMonth): string
    requires ym.year >= 0 && ym.month >= 0
  {
    NatToString(ym.year) + "-" + PadStart(NatToString(ym.month), 2, '0')
  }

  /**
   * `const [year, month] = s.split('-').map(Number)`, for identifiers whose
   * two fields are non-empty digit strings; any other text is `None`.
   */
  function ParseYearMonth(s: string): Option<YearMonth>
  {
    var i := IndexOf(s, '-');
    var rest := if i < |s| then s[i + 1..] else [];
    var year, month := s[..i], rest[..IndexOf(rest, '-')];
    if year != [] && month != [] && AllDigits(year) && AllDigits(month) then
      Some(YearMonth(DigitsValue(year), DigitsValue(month)))
    else None
  }

  /** Parsing the identifier of a month gives the month back. */
  lemma YearMonthRoundTrip(ym: YearMonth)
    requires ym.year >= 0 && 1 <= ym.month <= 12
    ensures ParseYearMonth(FormatYearMonth(ym)) == Some(ym)
  {
    PadTwoDigits(ym.month);
    ParseDigitFields(NatToString(ym.year), FixedDigits(ym.month, 2));
    NatToStringValue(ym.year);
    assert Pow10(2) == 100;
    FixedDigitsValue(ym.month, 2);
  }

  /** Two digit fields joined by a dash parse to their values. */
  lemma ParseDigitFields(y: string, m: string)
    requires y != [] && m != [] && AllDigits(y) && AllDigits(m)
    ensures ParseYearMonth(y + "-" + m) == Some(YearMonth(DigitsValue(y), DigitsValue(m)))
  {
    var s := y + "-" + m;
    assert s[|y|] == '-';
    forall j | 0 <= j < |y|
      ensures s[j] != '-'
    {
      assert s[j] == y[j] && IsDigit(y[j]);
    }
    IndexOfChar(s, '-', |y|);
    assert s[..|y|] == y;
    assert s[|y| + 1..] == m;
    NoDashInDigits(m);
    assert m[..|m|] == m;
  }

  lemma NoDashInDigits(m: string)
    requires AllDigits(m)
    ensures IndexOf(m, '-') == |m|
  {
    forall j | 0 <= j < |m|
      ensures m[j] != '-'
    {
      assert IsDigit(m[j]);
    }
  }

  /** Different months have different identifiers. */
  lemma FormatYearMonthInjective(a: YearMonth, b: YearMonth)
    requires a.year >= 0 && 1 <= a.month <= 12 && b.year >= 0 && 1 <= b.month <= 12
    requires FormatYearMonth(a) == FormatYearMonth(b)
    ensures a == b
  {
    YearMonthRoundTrip(a);
    YearMonthRoundTrip(b);
  }

  /** The month `i` months before `ym` (`new Date(year, month - i, 1)` in IncomePage). */
  function MonthsBefore(ym: YearMonth, i: int): (r: YearMonth)
    requires 1 <= ym.month <= 12
    ensures 1 <= r.month <= 12
    ensures r.year * 12 + r.month == ym.year * 12 + ym.month - i
  {
    var index := ym.year * 12 + (ym.month - 1) - i;
    YearMonth(index / 12, index % 12 + 1)
  }

  // ---------------------------------------------------------------------
  // The financial month of a date

  /** The financial month a date falls in: days before the 25th belong to the previous month's cycle. */
  function FinancialMonthOf(d: Date): YearMonth
  {
    if d.day >= 25 then YearMonth(d.year, d.month)
    else if d.month == 1 then YearMonth(d.year - 1, 12)
    else YearMonth(d.year, d.month - 1)
  }

  /** getCurrentFinancialMonth (lines 6-19), on the local date `today`. */
  method GetCurrentFinancialMonth(today: Date) returns (r: string)
    requires ValidDate(today)
    ensures r == FormatYearMonth(FinancialMonthOf(today))
  {
    var year, month := today.year, today.month;
    if today.day < 25 {
      // setMonth(getMonth() - 1); the day is at most 24, so it never overflows
      if month == 1 {
        year, month := year - 1, 12;
      } else {
        month := month - 1;
      }
    }
    r := NatToString(year) + "-" + PadStart(NatToString(month), 2, '0');
  }

  /** The first day of a financial month: the 25th. */
  function StartOf(ym: YearMonth): Date
  {
    Date(ym.year, ym.month, 25)
  }

  /** The last day: the 24th of the next month (`new Date(year, month, 24)` rolls December over). */
  function EndOf(ym: YearMonth): Date
  {
    if ym.month == 12 then Date(ym.year + 1, 1, 24) else Date(ym.year, ym.month + 1, 24)
  }

  datatype DateRange = DateRange(start: string, end: string)

  /**
   * getFinancialMonthRange (lines 22-34) with the dates written as the local
   * calendar dates they stand for. The source instead converts local
   * midnight to UTC; RangeOnHost models that, and the difference is listed
   * as a finding.
   */
  function FinancialMonthRange(ym: YearMonth): DateRange
    requires ValidYearMonth(ym)
  {
    DateRange(IsoDate(StartOf(ym)), IsoDate(EndOf(ym)))
  }

  /** The range text names the 25th of the month and the 24th of the next, in that order. */
  lemma FinancialMonthRangeSpec(ym: YearMonth)
    requires ValidYearMonth(ym)
    ensures ValidDate(StartOf(ym)) && ValidDate(EndOf(ym))
    ensures ParseIsoDate(FinancialMonthRange(ym).start) == Some(Date(ym.year, ym.month, 25))
    ensures ParseIsoDate(FinancialMonthRange(ym).end) ==
      Some(if ym.month == 12 then Date(ym.year + 1, 1, 24) else Date(ym.year, ym.month + 1, 24))
    ensures StrLt(FinancialMonthRange(ym).start, FinancialMonthRange(ym).end)
  {
    var a, b := StartOf(ym), EndOf(ym);
    BoundsOfMonth(ym, a, b);
    RangeOfDates(a, b, FinancialMonthRange(ym));
    assert b == if ym.month == 12 then Date(ym.year + 1, 1, 24) else Date(ym.year, ym.month + 1, 24);
  }

  /** A range written from two ordered dates reads back as those dates, in order. */
  lemma RangeOfDates(a: Date, b: Date, r: DateRange)
    requires ValidDate(a) && ValidDate(b) && DateLt(a, b)
    requires r == DateRange(IsoDate(a), IsoDate(b))
    ensures ParseIsoDate(r.start) == Some(a) && ParseIsoDate(r.end) == Some(b)
    ensures StrLt(r.start, r.end)
  {
    ParseIsoDateRoundTrip(a);
    ParseIsoDateRoundTrip(b);
    IsoDateOrder(a, b);
  }

  /** The 25th and the following 24th are real dates, the first before the second. */
  lemma BoundsOfMonth(ym: YearMonth, a: Date, b: Date)
    requires ValidYearMonth(ym) && a == StartOf(ym) && b == EndOf(ym)
    ensures ValidDate(a) && ValidDate(b) && DateLt(a, b)
  {
  }

  /** `date >= start && date <= end` on strings. */
  predicate InRange(date: string, r: DateRange)
  {
    !StrLt(date, r.start) && !StrLt(r.end, date)
  }

  /** isInFinancialMonth (lines 60-63). */
  predicate IsInFinancialMonth(date: string, ym: YearMonth)
    requires ValidYearMonth(ym)
  {
    InRange(date, FinancialMonthRange(ym))
  }

  /** For ISO dates the string test is the calendar test: from the 25th through the 24th. */
  lemma IsInFinancialMonthIff(d: Date, ym: YearMonth)
    requires ValidDate(d) && ValidYearMonth(ym)
    ensures IsInFinancialMonth(IsoDate(d), ym) <==> DateLe(StartOf(ym), d) && DateLe(d, EndOf(ym))
  {
    FinancialMonthRangeSpec(ym);
    IsoDateOrder(d, StartOf(ym));
    IsoDateOrder(EndOf(ym), d);
  }

  /** Every date lies in its own financial month ... */
  lemma FinancialMonthContains(d: Date)
    requires ValidDate(d) && ValidYearMonth(FinancialMonthOf(d))
    ensures IsInFinancialMonth(IsoDate(d), FinancialMonthOf(d))
  {
    IsInFinancialMonthIff(d, FinancialMonthOf(d));
  }

  /** ... and in no other, so consecutive financial months neither overlap nor leave gaps. */
  lemma FinancialMonthUnique(d: Date, ym: YearMonth)
    requires ValidDate(d) && ValidYearMonth(ym)
    requires IsInFinancialMonth(IsoDate(d), ym)
    ensures ym == FinancialMonthOf(d)
  {
    IsInFinancialMonthIff(d, ym);
  }

  // ---------------------------------------------------------------------
  // The range as the source computes it on a host with a time-zone offset

  /**
   * `new Date(y, m - 1, d).toISOString().split('T')[0]`: the UTC date of
   * local midnight on a host `offsetMinutes` ahead of UTC. Ahead of UTC,
   * local midnight is still the previous day in UTC.
   */
  function UtcDateOfLocalMidnight(d: Date, offsetMinutes: int): Date
    requires d.day >= 2 && -1440 < offsetMinutes < 1440
  {
    if offsetMinutes > 0 then d.(day := d.day - 1) else d
  }

  /** getFinancialMonthRange (lines 22-34) as written, on a host `offsetMinutes` ahead of UTC. */
  function RangeOnHost(ym: YearMonth, offsetMinutes: int): DateRange
    requires ValidYearMonth(ym) && -1440 < offsetMinutes < 1440
  {
    DateRange(IsoDate(UtcDateOfLocalMidnight(StartOf(ym), offsetMinutes)),
              IsoDate(UtcDateOfLocalMidnight(EndOf(ym), offsetMinutes)))
  }

  /** At UTC and west of it, the source's range is the intended one. */
  lemma RangeOnHostAtOrWestOfUtc(ym: YearMonth, offsetMinutes: int)
    requires ValidYearMonth(ym) && -1440 < offsetMinutes <= 0
    ensures RangeOnHost(ym, offsetMinutes) == FinancialMonthRange(ym)
  {
  }

  /**
   * East of UTC (Malaysia is UTC+8, 480 minutes) the source's range runs from
   * the 24th to the 23rd: an expense on 24 January 2025 drops out of the
   * December 2024 financial month, and one on 24 December 2024 falls in it.
   * On 24 January 2025 the current financial month is that December one, so
   * the records of that very day are outside the current month's range.
   */
  lemma RangeOnHostEastOfUtc(dec24: string, dec25: string, jan23: string, jan24: string)
    requires dec24 == "2024-12-24" && dec25 == "2024-12-25" && jan23 == "2025-01-23" && jan24 == "2025-01-24"
    ensures RangeOnHost(YearMonth(2024, 12), 480) == DateRange(dec24, jan23)
    ensures !InRange(jan24, RangeOnHost(YearMonth(2024, 12), 480))
    ensures IsInFinancialMonth(jan24, YearMonth(2024, 12))
    ensures InRange(dec24, RangeOnHost(YearMonth(2024, 12), 480))
    ensures !IsInFinancialMonth(dec24, YearMonth(2024, 12))
    ensures FinancialMonthOf(Date(2025, 1, 24)) == YearMonth(2024, 12)
  {
    DecemberRangeOnHost(dec24, jan23);
    DecemberRange(dec25, jan24);
    OrderOfExampleDates(dec24, dec25, jan23, jan24);
    StrLtAsymmetric(dec25, jan24);
    StrLtAsymmetric(dec24, jan23);
  }

  lemma DecemberRangeOnHost(dec24: string, jan23: string)
    requires dec24 == "2024-12-24" && jan23 == "2025-01-23"
    ensures RangeOnHost(YearMonth(2024, 12), 480) == DateRange(dec24, jan23)
  {
    IsoDec24(Date(2024, 12, 24));
    IsoJan23(Date(2025, 1, 23));
  }

  lemma DecemberRange(dec25: string, jan24: string)
    requires dec25 == "2024-12-25" && jan24 == "2025-01-24"
    ensures FinancialMonthRange(YearMonth(2024, 12)) == DateRange(dec25, jan24)
  {
    IsoDec25(Date(2024, 12, 25));
    IsoJan24(Date(2025, 1, 24));
  }

  lemma IsoDec24(d: Date) requires d == Date(2024, 12, 24) ensures IsoDate(d) == "2024-12-24" { IsoDateText(d, "2024-12-24"); }
  lemma IsoDec25(d: Date) requires d == Date(2024, 12, 25) ensures IsoDate(d) == "2024-12-25" { IsoDateText(d, "2024-12-25"); }
  lemma IsoJan23(d: Date) requires d == Date(2025, 1, 23) ensures IsoDate(d) == "2025-01-23" { IsoDateText(d, "2025-01-23"); }
  lemma IsoJan24(d: Date) requires d == Date(2025, 1, 24) ensures IsoDate(d) == "2025-01-24" { IsoDateText(d, "2025-01-24"); }

  lemma IsoDateText(d: Date, text: string)
    requires 0 <= d.year < 10000 && 0 <= d.month < 100 && 0 <= d.day < 100
    requires text == [DigitChar(d.year / 1000), DigitChar(d.year / 100 % 10), DigitChar(d.year / 10 % 10),
      DigitChar(d.year % 10), '-', DigitChar(d.month / 10), DigitChar(d.month % 10), '-',
      DigitChar(d.day / 10), DigitChar(d.day % 10)]
    ensures IsoDate(d) == text
  {
    IsoDateChars(d);
  }

  lemma OrderOfExampleDates(dec24: string, dec25: string, jan23: string, jan24: string)
    requires dec24 == "2024-12-24" && dec25 == "2024-12-25" && jan23 == "2025-01-23" && jan24 == "2025-01-24"
    ensures StrLt(jan23, jan24) && StrLt(dec24, dec25)
    ensures StrLt(dec24, jan23) && StrLt(dec25, jan24)
    ensures !StrLt(jan24, jan24) && !StrLt(dec24, dec24)
  {
    DayBefore(jan23, jan24);
    DayBefore(dec24, dec25);
    YearBefore(dec24, jan23);
    YearBefore(dec25, jan24);
    StrLtIrreflexive(jan24);
    StrLtIrreflexive(dec24);
  }

  lemma DayBefore(a: string, b: string)
    requires |a| == |b| == 10 && a[..9] == b[..9] && a[9] < b[9]
    ensures StrLt(a, b)
  {
    StrLtConcat(a[..9], a[9..], b[..9], b[9..]);
    assert a == a[..9] + a[9..] && b == b[..9] + b[9..];
  }

  lemma YearBefore(a: string, b: string)
    requires |a| == |b| == 10 && a[..3] == b[..3] && a[3] < b[3]
    ensures StrLt(a, b)
  {
    StrLtConcat(a[..3], a[3..], b[..3], b[3..]);
    assert a == a[..3] + a[3..] && b == b[..3] + b[3..];
    assert StrLt(a[..3], b[..3]) == false by { StrLtIrreflexive(a[..3]); }
  }

  // ---------------------------------------------------------------------
  // Names and display text

  /** getFinancialMonthName (lines 52-57): full month name and year. */
  function FinancialMonthName(ym: YearMonth): string
    requires ym.year >= 0 && 1 <= ym.month <= 12
  {
    LongMonthNames[ym.month - 1] + " " + NatToString(ym.year)
  }

  lemma FinancialMonthNameExample()
    ensures FinancialMonthName(YearMonth(2024, 12)) == "December 2024"
  {
  }

  /** Different months have different names, so the month picker's labels tell them apart. */
  lemma FinancialMonthNameInjective(a: YearMonth, b: YearMonth)
    requires a.year >= 0 && 1 <= a.month <= 12 && b.year >= 0 && 1 <= b.month <= 12
    requires FinancialMonthName(a) == FinancialMonthName(b)
    ensures a == b
  {
    var na, nb := LongMonthNames[a.month - 1], LongMonthNames[b.month - 1];
    MonthNamesHaveNoSpace();
    SplitAtFirstSpace(na, NatToString(a.year), nb, NatToString(b.year));
    MonthNamesDistinct(a.month - 1, b.month - 1);
    NatToStringInjective(a.year, b.year);
  }

  /** A word without a space, a space and a tail: the first space tells word and tail apart. */
  lemma SplitAtFirstSpace(na: string, ta: string, nb: string, tb: string)
    requires ' ' !in na && ' ' !in nb
    requires na + " " + ta == nb + " " + tb
    ensures na == nb && ta == tb
  {
    var s := na + " " + ta;
    IndexOfFirst(na, ' ');
    IndexOfFirst(nb, ' ');
    assert s == (na + " ") + ta;
    assert s == (nb + " ") + tb;
    IndexOfPrefix(na + " ", ta, ' ');
    IndexOfPrefix(nb + " ", tb, ' ');
    assert |na| == |nb|;
    assert na == s[..|na|] == nb;
    assert ta == s[|na| + 1..] == tb;
  }

  lemma MonthNamesHaveNoSpace()
    ensures forall k | 0 <= k < 12 :: ' ' !in LongMonthNames[k]
  {
  }

  lemma MonthNamesDistinct(i: int, j: int)
    requires 0 <= i < 12 && 0 <= j < 12 && LongMonthNames[i] == LongMonthNames[j]
    ensures i == j
  {
  }

  /** The first occurrence of c in text followed by c, when text does not contain it, is at the end. */
  lemma IndexOfFirst(text: string, c: char)
    requires c !in text
    ensures IndexOf(text + [c], c) == |text|
  {
    var t := text + [c];
    assert t[|text|] == c;
    assert forall j | 0 <= j < |text| :: t[j] == text[j];
    IndexOfChar(t, c, |text|);
  }

  lemma {:induction false} IndexOfChar(s: string, c: char, i: int)
    requires 0 <= i < |s| && s[i] == c && forall j | 0 <= j < i :: s[j] != c
    ensures IndexOf(s, c) == i
  {
    if i > 0 {
      IndexOfChar(s[1..], c, i - 1);
    }
  }

  lemma IndexOfPrefix(a: string, b: string, c: char)
    requires IndexOf(a, c) < |a|
    ensures IndexOf(a + b, c) == IndexOf(a, c)
  {
    var i := IndexOf(a, c);
    assert (a + b)[i] == c;
    assert forall j | 0 <= j < i :: (a + b)[j] == a[j];
  }

  /** `${months[date.getMonth()]} ${date.getDate()}, ${date.getFullYear()}`. */
  function ShortDate(d: Date): string
    requires 1 <= d.month <= 12 && d.day >= 0 && d.year >= 0
  {
    ShortMonthNames[d.month - 1] + " " + NatToString(d.day) + ", " + NatToString(d.year)
  }

  /** formatFinancialMonthRange (lines 37-49), on a host whose clock is at UTC. */
  function FormatFinancialMonthRange(ym: YearMonth): string
    requires ValidYearMonth(ym)
  {
    ShortDate(StartOf(ym)) + " - " + ShortDate(EndOf(ym))
  }

  /**
   * For every month: the short name of the month and day 25 of its year, then
   * the short name of the following month and day 24 of that month's year.
   */
  lemma FormatFinancialMonthRangeShape(ym: YearMonth, next: YearMonth)
    requires ValidYearMonth(ym)
    requires next == (if ym.month == 12 then YearMonth(ym.year + 1, 1) else YearMonth(ym.year, ym.month + 1))
    ensures FormatFinancialMonthRange(ym)
         == (ShortMonthNames[ym.month - 1] + " 25, " + NatToString(ym.year)) + " - "
            + (ShortMonthNames[next.month - 1] + " 24, " + NatToString(next.year))
  {
    ShortDateWithDay(StartOf(ym), " 25, ", 2, 5);
    ShortDateWithDay(EndOf(ym), " 24, ", 2, 4);
  }

  /** The short date of a day written with two digits. */
  lemma ShortDateWithDay(d: Date, dayText: string, a: nat, b: nat)
    requires 1 <= d.month <= 12 && d.year >= 0
    requires 1 <= a < 10 && b < 10 && d.day == a * 10 + b
    requires dayText == [' ', DigitChar(a), DigitChar(b), ',', ' ']
    ensures ShortDate(d) == ShortMonthNames[d.month - 1] + dayText + NatToString(d.year)
  {
    TwoDigits(d.day, a, b);
    var m, y := ShortMonthNames[d.month - 1], NatToString(d.year);
    assert m + " " + NatToString(d.day) + ", " == m + dayText;
  }

  /** The example in the source's own comment. */
  lemma FormatFinancialMonthRangeExample()
    ensures FormatFinancialMonthRange(YearMonth(2024, 12)) == "Dec 25, 2024" + " - " + "Jan 24, 2025"
  {
    ShortDec25(Date(2024, 12, 25));
    ShortJan24(Date(2025, 1, 24));
  }

  lemma ShortDec25(d: Date)
    requires d == Date(2024, 12, 25)
    ensures ShortDate(d) == "Dec 25, 2024"
  {
    TwoDigits(d.day, 2, 5);
    FourDigits(d.year, 2, 0, 2, 4);
    assert ShortMonthNames[d.month - 1] == "Dec";
  }

  lemma ShortJan24(d: Date)
    requires d == Date(2025, 1, 24)
    ensures ShortDate(d) == "Jan 24, 2025"
  {
    TwoDigits(d.day, 2, 4);
    FourDigits(d.year, 2, 0, 2, 5);
    assert ShortMonthNames[d.month - 1] == "Jan";
  }

  /** The text of a number written with two digits. */
  lemma TwoDigits(n: nat, a: nat, b: nat)
    requires 1 <= a < 10 && b < 10 && n == a * 10 + b
    ensures NatToString(n) == [DigitChar(a), DigitChar(b)]
  {
    DivUnique(n, 10, a, b);
  }

  /** The text of a number written with three digits. */
  lemma ThreeDigits(n: nat, a: nat, b: nat, c: nat)
    requires 1 <= a < 10 && b < 10 && c < 10 && n == a * 100 + b * 10 + c
    ensures NatToString(n) == [DigitChar(a), DigitChar(b), DigitChar(c)]
  {
    DivUnique(n, 10, a * 10 + b, c);
    TwoDigits(a * 10 + b, a, b);
  }

  /** The text of a number written with four digits. */
  lemma FourDigits(n: nat, a: nat, b: nat, c: nat, d: nat)
    requires 1 <= a < 10 && b < 10 && c < 10 && d < 10 && n == a * 1000 + b * 100 + c * 10 + d
    ensures NatToString(n) == [DigitChar(a), DigitChar(b), DigitChar(c), DigitChar(d)]
  {
    DivUnique(n, 10, a * 100 + b * 10 + c, d);
    ThreeDigits(a * 100 + b * 10 + c, a, b, c);
  }

  // ---------------------------------------------------------------------
  // Currency

  function Abs(i: int): nat
  {
    if i < 0 then -i else i
  }

  /** `amount.toFixed(2)` for an amount of `cents` hundredths. */
  function ToFixed2(cents: int): string
  {
    (if cents < 0 then "-" else "") + NatToString(Abs(cents) / 100) + "." + FixedDigits(Abs(cents) % 100, 2)
  }

  /** A character `\w` matches. */
  predicate IsWordChar(c: char)
  {
    'a' <= c <= 'z' || 'A' <= c <= 'Z' || IsDigit(c) || c == '_'
  }

  /** `\B` at position i: both neighbours are word characters, or neither is. */
  predicate NonBoundaryAt(s: string, i: int)
    requires 0 <= i <= |s|
  {
    (i > 0 && IsWordChar(s[i - 1])) == (i < |s| && IsWordChar(s[i]))
  }

  /** The number of consecutive digits from position i. */
  function DigitRun(s: string, i: int): (n: nat)
    requires 0 <= i <= |s|
    ensures i + n <= |s|
    decreases |s| - i
  {
    if i < |s| && IsDigit(s[i]) then 1 + DigitRun(s, i + 1) else 0
  }

  /** `(?=(\d{3})+(?!\d))` at position i: the digits from i come in whole groups of three. */
  predicate GroupsAhead(s: string, i: int)
    requires 0 <= i <= |s|
  {
    var n := DigitRun(s, i);
    n >= 3 && n % 3 == 0
  }

  /** `s.replace(/\B(?=(\d{3})+(?!\d))/g, ',')` from position i: a comma at each position the pattern matches. */
  function InsertCommasFrom(s: string, i: int): string
    requires 0 <= i <= |s|
    decreases |s| - i
  {
    (if NonBoundaryAt(s, i) && GroupsAhead(s, i) then "," else "")
    + (if i < |s| then [s[i]] + InsertCommasFrom(s, i + 1) else "")
  }

  /** formatCurrency (lines 83-85), for an amount of `cents` hundredths. */
  function FormatCurrency(cents: int): string
  {
    "RM" + InsertCommasFrom(ToFixed2(cents), 0)
  }

  /** Digits with a comma before each group of three counted from the right. */
  function GroupThousands(d: string): string
    decreases |d|
  {
    if |d| <= 3 then d else GroupThousands(d[..|d| - 3]) + "," + d[|d| - 3..]
  }

  /** The digits of d from position k, with a comma wherever a positive multiple of three digits remains. */
  function CommasFrom(d: string, k: int): string
    requires 0 <= k <= |d|
    decreases |d| - k
  {
    if k == |d| then "" else (if (|d| - k) % 3 == 0 then "," else "") + [d[k]] + CommasFrom(d, k + 1)
  }

  /** The currency text is "RM", the sign, the whole units grouped by thousands, and two decimals. */
  lemma FormatCurrencyGroups(cents: int)
    ensures FormatCurrency(cents) ==
      "RM" + (if cents < 0 then "-" else "") + GroupThousands(NatToString(Abs(cents) / 100))
      + "." + FixedDigits(Abs(cents) % 100, 2)
  {
    InsertCommasShape(if cents < 0 then "-" else "", NatToString(Abs(cents) / 100), FixedDigits(Abs(cents) % 100, 2));
  }

  /** The regular expression applied to `toFixed` text: commas go between the thousands groups only. */
  lemma InsertCommasShape(sign: string, d: string, f: string)
    requires sign == "" || sign == "-"
    requires |d| >= 1 && AllDigits(d) && |f| == 2 && AllDigits(f)
    ensures InsertCommasFrom(sign + d + "." + f, 0) == sign + GroupThousands(d) + "." + f
  {
    var s := sign + d + "." + f;
    var g := GroupThousands(d) + ("." + f);
    UnitsPart(s, sign, d, f);
    SignPart(s, sign, g);
    Reassociate3(sign, GroupThousands(d), ".", f);
    assert sign + (GroupThousands(d) + ("." + f)) == sign + GroupThousands(d) + "." + f;
  }

  /** The sign, if any, is kept in front of the grouped units. */
  lemma SignPart(s: string, sign: string, g: string)
    requires sign == "" || sign == "-"
    requires |s| > |sign| && s[..|sign|] == sign
    requires InsertCommasFrom(s, |sign|) == g
    ensures InsertCommasFrom(s, 0) == sign + g
  {
    if sign == "-" {
      NothingBeforeSign(s);
    }
  }

  lemma UnitsPart(s: string, sign: string, d: string, f: string)
    requires sign == "" || sign == "-"
    requires |d| >= 1 && AllDigits(d) && |f| == 2 && AllDigits(f)
    requires s == sign + d + "." + f
    ensures InsertCommasFrom(s, |sign|) == GroupThousands(d) + ("." + f)
  {
    var p := |sign|;
    assert forall k | 0 <= k < |d| :: s[p + k] == d[k];
    assert s[p + |d|..] == "." + f;
    assert p == 1 ==> s[p - 1] == '-';
    UnitsCommas(s, p, d, "." + f);
  }

  /** Whole units d at position p, preceded by nothing or a non-word character and followed by the decimals. */
  lemma UnitsCommas(s: string, p: int, d: string, tail: string)
    requires 0 <= p <= 1 && |d| >= 1 && AllDigits(d) && p + |d| + 3 == |s|
    requires forall k | 0 <= k < |d| :: s[p + k] == d[k]
    requires s[p + |d|..] == tail && |tail| == 3 && tail[0] == '.'
    requires p == 1 ==> s[p - 1] == '-'
    ensures InsertCommasFrom(s, p) == GroupThousands(d) + tail
  {
    AfterFirstDigit(s, p, d, tail);
    GroupThousandsCommas(d);
    assert s[p] == d[0];
    InsertNothingAt(s, p);
    Reassociate(InsertCommasFrom(s, p), s[p], InsertCommasFrom(s, p + 1), CommasFrom(d, 1), tail, GroupThousands(d));
  }

  lemma Reassociate(whole: string, c: char, rest: string, mid: string, tail: string, head: string)
    requires whole == [c] + rest && rest == mid + tail && head == [c] + mid
    ensures whole == head + tail
  {
  }

  lemma AfterFirstDigit(s: string, p: int, d: string, tail: string)
    requires 0 <= p && |d| >= 1 && AllDigits(d) && p + |d| + 3 == |s|
    requires forall k | 0 <= k < |d| :: s[p + k] == d[k]
    requires s[p + |d|..] == tail && tail[0] == '.'
    ensures InsertCommasFrom(s, p + 1) == CommasFrom(d, 1) + tail
  {
    assert s[p + |d|] == '.';
    TailHasNoCommas(s, p + |d|, p + |d|);
    UnitsGetCommas(s, p, d, 1);
  }

  lemma NothingBeforeSign(s: string)
    requires |s| >= 1 && s[0] == '-'
    ensures InsertCommasFrom(s, 0) == "-" + InsertCommasFrom(s, 1)
  {
    InsertNothingAt(s, 0);
  }

  /** No comma goes before a word character that follows a non-word one, nor before a non-digit. */
  lemma InsertNothingAt(s: string, i: int)
    requires 0 <= i < |s|
    requires (i == 0 || !IsWordChar(s[i - 1])) && (IsWordChar(s[i]) || !IsDigit(s[i]))
    ensures InsertCommasFrom(s, i) == [s[i]] + InsertCommasFrom(s, i + 1)
  {
    assert !(NonBoundaryAt(s, i) && GroupsAhead(s, i));
  }

  /** From the decimal point on, no position is followed by three digits, so nothing is inserted. */
  lemma {:induction false} TailHasNoCommas(s: string, dot: int, i: int)
    requires 0 <= dot <= i <= |s| && |s| == dot + 3 && s[dot] == '.'
    ensures InsertCommasFrom(s, i) == s[i..]
    decreases |s| - i
  {
    assert DigitRun(s, i) <= |s| - i;
    if i == dot {
      assert DigitRun(s, i) == 0;
    }
    if i < |s| {
      TailHasNoCommas(s, dot, i + 1);
      assert s[i..] == [s[i]] + s[i + 1..];
    }
  }

  /** The digit run from each digit of the whole units stops at the decimal point. */
  lemma {:induction false} DigitRunOfUnits(s: string, p: int, d: string)
    requires 0 <= p && p + |d| < |s| && s[p + |d|] == '.'
    requires AllDigits(d) && forall k | 0 <= k < |d| :: s[p + k] == d[k]
    ensures forall i | p <= i <= p + |d| :: DigitRun(s, i) == p + |d| - i
  {
    forall i | p <= i <= p + |d| ensures DigitRun(s, i) == p + |d| - i {
      DigitRunFrom(s, p, d, i);
    }
  }

  lemma {:induction false} DigitRunFrom(s: string, p: int, d: string, i: int)
    requires 0 <= p && p + |d| < |s| && s[p + |d|] == '.'
    requires AllDigits(d) && forall j | 0 <= j < |d| :: s[p + j] == d[j]
    requires p <= i <= p + |d|
    ensures DigitRun(s, i) == p + |d| - i
    decreases p + |d| - i
  {
    if i < p + |d| {
      assert s[p + (i - p)] == d[i - p];
      assert IsDigit(s[i]);
      DigitRunFrom(s, p, d, i + 1);
    } else {
      assert !IsDigit(s[i]);
    }
  }

  /** Inside the whole units the regular expression inserts exactly the commas of CommasFrom. */
  lemma {:induction false} UnitsGetCommas(s: string, p: int, d: string, k: int)
    requires 0 <= p && p + |d| + 3 == |s| && s[p + |d|] == '.' && InsertCommasFrom(s, p + |d|) == s[p + |d|..]
    requires AllDigits(d) && forall j | 0 <= j < |d| :: s[p + j] == d[j]
    requires 1 <= k <= |d|
    ensures InsertCommasFrom(s, p + k) == CommasFrom(d, k) + s[p + |d|..]
    decreases |d| - k
  {
    if k < |d| {
      UnitsGetCommas(s, p, d, k + 1);
      var i, t := p + k, s[p + |d|..];
      assert s[p + (k - 1)] == d[k - 1] && s[p + k] == d[k];
      assert IsDigit(s[i - 1]) && IsDigit(s[i]);
      DigitRunFrom(s, p, d, i);
      var sep := if (|d| - k) % 3 == 0 then "," else "";
      InsertCommasAt(s, i, sep);
      CommasFromAt(d, k, sep);
      Reassociate3(sep, [d[k]], CommasFrom(d, k + 1), t);
    }
  }

  /** One step of the replacement: the separator chosen at i, then the character, then the rest. */
  lemma InsertCommasAt(s: string, i: int, sep: string)
    requires 0 <= i < |s|
    requires sep == if NonBoundaryAt(s, i) && GroupsAhead(s, i) then "," else ""
    ensures InsertCommasFrom(s, i) == sep + ([s[i]] + InsertCommasFrom(s, i + 1))
  {
  }

  lemma CommasFromAt(d: string, k: int, sep: string)
    requires 0 <= k < |d|
    requires sep == if (|d| - k) % 3 == 0 then "," else ""
    ensures CommasFrom(d, k) == sep + [d[k]] + CommasFrom(d, k + 1)
  {
  }

  lemma Reassociate3(a: string, b: string, c: string, t: string)
    ensures a + (b + (c + t)) == a + b + c + t
  {
  }

  /** The comma positions of CommasFrom are those of GroupThousands. */
  lemma {:induction false} GroupThousandsCommas(d: string)
    requires |d| >= 1
    ensures GroupThousands(d) == [d[0]] + CommasFrom(d, 1)
    decreases |d|
  {
    if |d| <= 3 {
      ShortUnitsHaveNoCommas(d);
    } else {
      var a, b := d[..|d| - 3], d[|d| - 3..];
      assert d == a + b;
      GroupThousandsCommas(a);
      CommasSplit(d, a, b, 1);
      calc {
        GroupThousands(d);
        GroupThousands(a) + "," + b;
        ([a[0]] + CommasFrom(a, 1)) + "," + b;
        [d[0]] + (CommasFrom(a, 1) + "," + b);
        [d[0]] + CommasFrom(d, 1);
      }
    }
  }

  lemma ShortUnitsHaveNoCommas(d: string)
    requires 1 <= |d| <= 3
    ensures [d[0]] + CommasFrom(d, 1) == d
  {
    if |d| == 1 {
      ShortUnits1(d);
    } else if |d| == 2 {
      ShortUnits2(d);
    } else {
      ShortUnits3(d);
    }
  }

  lemma ShortUnits1(d: string)
    requires |d| == 1
    ensures [d[0]] + CommasFrom(d, 1) == d
  {
    assert CommasFrom(d, 1) == "";
  }

  lemma ShortUnits2(d: string)
    requires |d| == 2
    ensures [d[0]] + CommasFrom(d, 1) == d
  {
    CommasFromNoComma(d, 1);
    assert CommasFrom(d, 2) == "";
  }

  lemma ShortUnits3(d: string)
    requires |d| == 3
    ensures [d[0]] + CommasFrom(d, 1) == d
  {
    CommasFromNoComma(d, 1);
    CommasFromNoComma(d, 2);
    assert CommasFrom(d, 3) == "";
  }

  /** A position with a number of remaining digits that is not a multiple of three gets no comma. */
  lemma CommasFromNoComma(d: string, k: int)
    requires 0 <= k < |d| && (|d| - k) % 3 != 0
    ensures CommasFrom(d, k) == [d[k]] + CommasFrom(d, k + 1)
  {
  }

  lemma {:induction false} CommasSplit(d: string, a: string, b: string, k: int)
    requires d == a + b && |b| == 3 && 1 <= k <= |a|
    ensures CommasFrom(d, k) == CommasFrom(a, k) + "," + b
    decreases |a| - k
  {
    if k == |a| {
      CommasFromLastThree(d, k);
      assert b == [d[k], d[k + 1], d[k + 2]];
    } else {
      CommasSplit(d, a, b, k + 1);
      var sep := if (|a| - k) % 3 == 0 then "," else "";
      assert (|d| - k) % 3 == (|a| - k) % 3;
      calc {
        CommasFrom(d, k);
        sep + [d[k]] + CommasFrom(d, k + 1);
        { assert d[k] == a[k]; }
        sep + [a[k]] + (CommasFrom(a, k + 1) + "," + b);
        { Reassociate4(sep + [a[k]], CommasFrom(a, k + 1), ",", b); }
        sep + [a[k]] + CommasFrom(a, k + 1) + "," + b;
        CommasFrom(a, k) + "," + b;
      }
    }
  }

  /** The last three digits: a comma before them and none between them. */
  lemma CommasFromLastThree(d: string, k: int)
    requires 0 <= k && k + 3 == |d|
    ensures CommasFrom(d, k) == "," + [d[k], d[k + 1], d[k + 2]]
  {
    assert CommasFrom(d, k + 3) == "";
    CommasFromNoComma(d, k + 2);
    CommasFromNoComma(d, k + 1);
  }

  lemma Reassociate4(p: string, q: string, r: string, t: string)
    ensures p + (q + r + t) == p + q + r + t
  {
  }

  lemma FormatCurrencyExamples()
    ensures FormatCurrency(123450) == "RM1,234.50"
    ensures FormatCurrency(-123450) == "RM-1,234.50"
  {
    FormatCurrencyThousand(123450);
    FormatCurrencyMinusThousand(-123450);
  }

  lemma FormatCurrencyThousand(c: int)
    requires c == 123450
    ensures FormatCurrency(c) == "RM1,234.50"
  {
    FormatCurrencyGroups(c);
    assert Abs(c) / 100 == 1234 && Abs(c) % 100 == 50;
    ThousandPieces();
    var g, f := GroupThousands(NatToString(1234)), FixedDigits(50, 2);
    assert FormatCurrency(c) == "RM" + "" + g + "." + f;
    assert g == "1,234" && f == "50";
    ThousandText(FormatCurrency(c), "", g, f);
  }

  lemma FormatCurrencyMinusThousand(c: int)
    requires c == -123450
    ensures FormatCurrency(c) == "RM-1,234.50"
  {
    FormatCurrencyGroups(c);
    assert Abs(c) / 100 == 1234 && Abs(c) % 100 == 50;
    ThousandPieces();
    var g, f := GroupThousands(NatToString(1234)), FixedDigits(50, 2);
    assert FormatCurrency(c) == "RM" + "-" + g + "." + f;
    assert g == "1,234" && f == "50";
    ThousandText(FormatCurrency(c), "-", g, f);
  }

  lemma ThousandText(r: string, sign: string, g: string, f: string)
    requires r == "RM" + sign + g + "." + f && g == "1,234" && f == "50"
    ensures sign == "" ==> r == "RM1,234.50"
    ensures sign == "-" ==> r == "RM-1,234.50"
  {
  }

  /** The pieces of 1234.50: its whole units, their grouping and its decimals. */
  lemma ThousandPieces()
    ensures NatToString(1234) == "1234"
    ensures GroupThousands("1234") == "1,234"
    ensures FixedDigits(50, 2) == "50"
  {
    DigitsOf1234(1234);
    GroupOf1234("1234");
    DigitsOf50(50);
  }

  lemma DigitsOf1234(n: nat)
    requires n == 1234
    ensures NatToString(n) == "1234"
  {
    FourDigits(n, 1, 2, 3, 4);
  }

  lemma GroupOf1234(d: string)
    requires d == "1234"
    ensures GroupThousands(d) == "1,234"
  {
    assert d[..1] == "1" && d[1..] == "234";
  }

  lemma DigitsOf50(n: nat)
    requires n == 50
    ensures FixedDigits(n, 2) == "50"
  {
    calc {
      FixedDigits(n, 2);
      FixedDigits(5, 1) + [DigitChar(0)];
      FixedDigits(0, 0) + [DigitChar(5)] + [DigitChar(0)];
      "50";
    }
  }

  // ---------------------------------------------------------------------
  // Last day of a month and days until a date

  /** getLastDayOfMonth (lines 93-95) for a 0-based `month`, which may lie outside 0 to 11. */
  function GetLastDayOfMonth(year: int, month: int): (r: int)
    ensures 28 <= r <= 31
  {
    // new Date(year, month + 1, 0): day 0 of the following month, after the month index is normalised
    DaysInMonth(year + month / 12, month % 12 + 1)
  }

  /** The last day of a month is the day before the 1st of the following month. */
  lemma LastDayPrecedesNextMonth(year: int, month: int)
    requires year + month / 12 >= 1
    ensures var y, m := year + month / 12, month % 12 + 1;
      var next := Date(year + (month + 1) / 12, (month + 1) % 12 + 1, 1);
      next.year >= 1 && DayNumber(Date(y, m, GetLastDayOfMonth(year, month))) + 1 == DayNumber(next)
  {
    var y, m := year + month / 12, month % 12 + 1;
    NextMonthIndex(month);
    var last := Date(y, m, GetLastDayOfMonth(year, month));
    var next := Date(year + (month + 1) / 12, (month + 1) % 12 + 1, 1);
    assert last == Date(y, m, DaysInMonth(y, m));
    if m == 12 {
      assert next == Date(y + 1, 1, 1);
      NewYearFollows(y);
    } else {
      assert next == Date(y, m + 1, 1);
      FirstFollowsLastDay(y, m);
    }
  }

  /** Normalising the following month index: December rolls into January of the next year. */
  lemma NextMonthIndex(month: int)
    ensures month % 12 == 11 ==> (month + 1) / 12 == month / 12 + 1 && (month + 1) % 12 == 0
    ensures month % 12 < 11 ==> (month + 1) / 12 == month / 12 && (month + 1) % 12 == month % 12 + 1
  {
    assert month == month / 12 * 12 + month % 12;
    if month % 12 == 11 {
      DivUnique(month + 1, 12, month / 12 + 1, 0);
    } else {
      DivUnique(month + 1, 12, month / 12, month % 12 + 1);
    }
  }

  lemma NewYearFollows(y: int)
    requires y >= 1
    ensures DayNumber(Date(y, 12, DaysInMonth(y, 12))) + 1 == DayNumber(Date(y + 1, 1, 1))
  {
    assert DaysBeforeMonth(y, 13) == DaysBeforeMonth(y, 12) + DaysInMonth(y, 12);
    DaysBeforeMonthWholeYear(y);
    DaysBeforeYearStep(y);
  }

  lemma FirstFollowsLastDay(y: int, m: int)
    requires y >= 1 && 1 <= m < 12
    ensures DayNumber(Date(y, m, DaysInMonth(y, m))) + 1 == DayNumber(Date(y, m + 1, 1))
  {
    assert DaysBeforeMonth(y, m + 1) == DaysBeforeMonth(y, m) + DaysInMonth(y, m);
  }

  /**
   * getDaysUntilDate (lines 97-104) on local date `today`: the whole days from
   * today to the date `s` names, or `None` where the source computes NaN.
   */
  function DaysUntil(s: string, today: Date): Option<int>
    requires ValidDate(today)
  {
    match ParseIsoDate(s)
    case None => None
    case Some(d) => Some(DayNumber(d) - DayNumber(today))
  }

  /** Zero for today, negative for past dates, positive for future ones. */
  lemma DaysUntilSign(d: Date, today: Date)
    requires ValidDate(d) && ValidDate(today)
    ensures DaysUntil(IsoDate(d), today).Some?
    ensures var n := DaysUntil(IsoDate(d), today).value;
      (n == 0 <==> d == today) && (n < 0 <==> DateLt(d, today)) && (n > 0 <==> DateLt(today, d))
  {
    ParseIsoDateRoundTrip(d);
    DayNumberOrder(d, today);
    DayNumberOrder(today, d);
  }

  /** getDaysUntilDate (lines 97-104): both instants are moved to midnight before the division. */
  method GetDaysUntilDate(dateString: string, now: DateTime) returns (days: Option<int>)
    requires ValidDateTime(now)
    ensures days == DaysUntil(dateString, now.date)
  {
    var parsed := ParseIsoDate(dateString);
    if parsed.None? {
      // an Invalid Date: the difference below would be NaN
      return None;
    }
    var target := DateTime(parsed.value, 0);
    var today := now;
    today := today.(msOfDay := 0);
    target := target.(msOfDay := 0);
    var diffTime := Timestamp(target) - Timestamp(today);
    WholeDays(DayNumber(target.date), DayNumber(today.date));
    days := Some(CeilDiv(diffTime, MsPerDay));
  }

  /** The difference of two midnights is a whole number of days. */
  lemma WholeDays(a: int, b: int)
    ensures CeilDiv(a * MsPerDay - b * MsPerDay, MsPerDay) == a - b
  {
    assert a * MsPerDay - b * MsPerDay == (a - b) * MsPerDay;
    DivUnique(-((a - b) * MsPerDay), MsPerDay, -(a - b), 0);
  }
}
