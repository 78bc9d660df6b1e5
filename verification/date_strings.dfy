/**
 * Display strings for calendar dates (app/features/verification/utilities/getDateStrings.ts):
 * day and month are padded to two digits, the year is printed as is.
 */
module DateStrings {

  /** A local calendar date as JavaScript's `Date` reports it: `getFullYear()`,
      the 0-based `getMonth()` and the day of the month `getDate()`. */
  datatype CalendarDate = CalendarDate(fullYear: int, monthIndex: int, dayOfMonth: int)

  datatype DateStrings = DateStrings(day: string, month: string, year: string)

  predicate IsDigit(c: char) {
    '0' <= c <= '9'
  }

  predicate AllDigits(s: string) {
    forall i :: 0 <= i < |s| ==> IsDigit(s[i])
  }

  function DigitChar(d: int): (c: char)
    requires 0 <= d < 10
    ensures IsDigit(c)
  {
    ('0' as int + d) as char
  }

  /** Shortest decimal numeral of a natural number. */
  function NatToDecimal(n: nat): (s: string)
    ensures |s| >= 1 && AllDigits(s)
    ensures n < 10 <==> |s| == 1
  {
    if n < 10 then [DigitChar(n)] else NatToDecimal(n / 10) + [DigitChar(n % 10)]
  }

  /** JavaScript's `${n}` for an integer: a minus sign before the digits of `|n|`. */
  function IntToDecimal(n: int): string {
    if n < 0 then "-" + NatToDecimal(-n) else NatToDecimal(n)
  }

  /** Reads a string of decimal digits back as a number. */
  function DecimalValue(s: string): nat
    requires AllDigits(s)
  {
    if s == [] then 0 else 10 * DecimalValue(s[..|s| - 1]) + (s[|s| - 1] as int - '0' as int)
  }

  lemma {:induction false} DecimalValueOfNatToDecimal(n: nat)
    ensures DecimalValue(NatToDecimal(n)) == n
  {
    if n >= 10 {
      var s := NatToDecimal(n);
      assert s[..|s| - 1] == NatToDecimal(n / 10);
      DecimalValueOfNatToDecimal(n / 10);
    }
  }

  lemma {:induction false} NatToDecimalLength(n: nat, k: nat)
    requires n < Pow10(k + 1)
    ensures |NatToDecimal(n)| <= k + 1
  {
    if n >= 10 {
      assert k >= 1;
      NatToDecimalLength(n / 10, k - 1);
    }
  }

  lemma {:induction false} NatToDecimalMinLength(n: nat, k: nat)
    requires Pow10(k) <= n
    ensures |NatToDecimal(n)| >= k + 1
  {
    if k > 0 {
      assert n >= 10;
      NatToDecimalMinLength(n / 10, k - 1);
    }
  }

  function Pow10(k: nat): (p: nat)
    ensures p >= 1
  {
    if k == 0 then 1 else 10 * Pow10(k - 1)
  }

  /** `twoDigitDayOrMonth`: a leading "0" for values below ten, the plain numeral otherwise. */
  function TwoDigitDayOrMonth(v: int): string {
    if v < 10 then "0" + IntToDecimal(v) else IntToDecimal(v)
  }

  /** Every day or month number 0..99 becomes exactly two digits that read back as the number. */
  lemma TwoDigitDayOrMonthRoundTrip(v: int)
    requires 0 <= v <= 99
    ensures |TwoDigitDayOrMonth(v)| == 2
    ensures AllDigits(TwoDigitDayOrMonth(v))
    ensures DecimalValue(TwoDigitDayOrMonth(v)) == v
  {
    var s := TwoDigitDayOrMonth(v);
    DecimalValueOfNatToDecimal(v);
    if v < 10 {
      assert s == ['0', DigitChar(v)];
      assert s[..1] == "0";
    } else {
      NatToDecimalLength(v, 1);
    }
  }

  /** A year from 1000 to 9999 prints as four digits that read back as the year. */
  lemma FourDigitYear(y: int)
    requires 1000 <= y <= 9999
    ensures |IntToDecimal(y)| == 4 && AllDigits(IntToDecimal(y)) && DecimalValue(IntToDecimal(y)) == y
  {
    NatToDecimalLength(y, 3);
    NatToDecimalMinLength(y, 3);
    DecimalValueOfNatToDecimal(y);
  }

  /** `getDateStrings`: day of month and 1-based month padded, year unpadded. */
  function GetDateStrings(date: CalendarDate): DateStrings {
    DateStrings(
      day := TwoDigitDayOrMonth(date.dayOfMonth),
      month := TwoDigitDayOrMonth(date.monthIndex + 1),
      year := IntToDecimal(date.fullYear))
  }

  /** For a real calendar date the day and month strings are two digits that read back as the
      day of the month and the calendar (1-based) month. */
  lemma GetDateStringsOfCalendarDate(date: CalendarDate)
    requires 0 <= date.monthIndex <= 11 && 1 <= date.dayOfMonth <= 31
    ensures var r := GetDateStrings(date);
      && |r.day| == 2 && AllDigits(r.day) && DecimalValue(r.day) == date.dayOfMonth
      && |r.month| == 2 && AllDigits(r.month) && DecimalValue(r.month) == date.monthIndex + 1
  {
    TwoDigitDayOrMonthRoundTrip(date.dayOfMonth);
    TwoDigitDayOrMonthRoundTrip(date.monthIndex + 1);
  }

  /** Distinct dates of the years 1000 to 9999 give distinct display strings. */
  lemma GetDateStringsInjective(d1: CalendarDate, d2: CalendarDate)
    requires 0 <= d1.monthIndex <= 11 && 1 <= d1.dayOfMonth <= 31 && 1000 <= d1.fullYear <= 9999
    requires 0 <= d2.monthIndex <= 11 && 1 <= d2.dayOfMonth <= 31 && 1000 <= d2.fullYear <= 9999
    requires GetDateStrings(d1) == GetDateStrings(d2)
    ensures d1 == d2
  {
    GetDateStringsOfCalendarDate(d1);
    GetDateStringsOfCalendarDate(d2);
    FourDigitYear(d1.fullYear);
    FourDigitYear(d2.fullYear);
  }
}
