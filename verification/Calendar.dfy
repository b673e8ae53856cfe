/**
  Day arithmetic on YYYY-MM-DD strings (scripts/backfill/user-streak.algorithm.ts, utcDaySubtract).

  Day numbers are those of section 21.4.1 of ECMA-262: 0 is 1970-01-01 in the proleptic Gregorian calendar.
*/
module Calendar {
  import opened Prelude

  datatype Date = Date(year: int, month: int, day: int)

  predicate IsLeap(y: int) {
    y % 4 == 0 && (y % 100 != 0 || y % 400 == 0)
  }

  function DaysInYear(y: int): int {
    if IsLeap(y) then 366 else 365
  }

  function DaysInMonth(y: int, m: int): int {
    if m == 2 then (if IsLeap(y) then 29 else 28)
    else if m == 4 || m == 6 || m == 9 || m == 11 then 30 else 31
  }

  predicate Valid(d: Date) {
    1 <= d.month <= 12 && 1 <= d.day <= DaysInMonth(d.year, d.month)
  }

  /** DayFromYear: the number of the first day of a year. */
  function FirstDayOf(y: int): int {
    365 * (y - 1970) + (y - 1969) / 4 - (y - 1901) / 100 + (y - 1601) / 400
  }

  /** The days of a year before a month. */
  function DaysBefore(y: int, m: int): int
    requires 1 <= m <= 13
  {
    if m == 1 then 0 else DaysBefore(y, m - 1) + DaysInMonth(y, m - 1)
  }

  function DayNumber(d: Date): int
    requires Valid(d)
  {
    FirstDayOf(d.year) + DaysBefore(d.year, d.month) + d.day - 1
  }

  /** The Gregorian calendar repeats after 400 years of 146097 days, and the epoch is 1970-01-01. */
  lemma GregorianCycle(y: int)
    ensures FirstDayOf(1970) == 0 && FirstDayOf(2000) == 10957
    ensures FirstDayOf(y + 400) == FirstDayOf(y) + 146097
  {
    Shifted(y - 1969, 4, 100);
    Shifted(y - 1901, 100, 4);
    Shifted(y - 1601, 400, 1);
  }

  lemma Shifted(n: int, d: int, k: int)
    requires d == 4 || d == 100 || d == 400
    ensures (n + k * d) / d == n / d + k
  {
  }

  lemma MonthLengths(y: int, m: int)
    requires 1 <= m <= 12
    ensures DaysInMonth(y, m) ==
            [31, FirstDayOf(y + 1) - FirstDayOf(y) - 337, 31, 30, 31, 30, 31, 31, 30, 31, 30, 31][m - 1]
  {
    FourYearStep(y);
    CenturyStep(y);
    GreatCycleStep(y);
  }

  lemma FourYearStep(y: int)
    ensures (y - 1968) / 4 == (y - 1969) / 4 + (if y % 4 == 0 then 1 else 0)
  {
  }

  lemma CenturyStep(y: int)
    ensures (y - 1900) / 100 == (y - 1901) / 100 + (if y % 100 == 0 then 1 else 0)
  {
  }

  lemma GreatCycleStep(y: int)
    ensures (y - 1600) / 400 == (y - 1601) / 400 + (if y % 400 == 0 then 1 else 0)
  {
  }

  lemma LeapDay(y: int)
    ensures DaysInYear(y) == 365 + (if y % 4 == 0 then 1 else 0) - (if y % 100 == 0 then 1 else 0)
                                 + (if y % 400 == 0 then 1 else 0)
  {
    if y % 400 == 0 {
      MultipleOf100(4 * (y / 400));
    }
    if y % 100 == 0 {
      MultipleOf4(25 * (y / 100));
    }
  }

  lemma MultipleOf100(k: int)
    ensures (100 * k) % 100 == 0
  {
  }

  lemma MultipleOf4(k: int)
    ensures (4 * k) % 4 == 0
  {
  }

  lemma YearLength(y: int)
    ensures FirstDayOf(y + 1) == FirstDayOf(y) + DaysInYear(y)
  {
    FourYearStep(y);
    CenturyStep(y);
    GreatCycleStep(y);
    LeapDay(y);
  }

  /** YearFromTime: the year whose first day is the last one not after day n; looked for from year y on. */
  function YearOf(n: int, y: int): (r: int)
    ensures FirstDayOf(r) <= n < FirstDayOf(r + 1)
    decreases if n < FirstDayOf(y) then FirstDayOf(y) - n else if n >= FirstDayOf(y + 1) then n - FirstDayOf(y) else 0
  {
    YearLength(y - 1);
    YearLength(y);
    if n < FirstDayOf(y) then YearOf(n, y - 1)
    else if n >= FirstDayOf(y + 1) then YearOf(n, y + 1)
    else y
  }

  /** MonthFromTime, for a day counted from the start of the year. */
  function MonthOf(y: int, dayOfYear: int, m: int): (r: int)
    requires 1 <= m <= 12 && DaysBefore(y, m) <= dayOfYear < DaysBefore(y, 13)
    ensures m <= r <= 12 && DaysBefore(y, r) <= dayOfYear < DaysBefore(y, r + 1)
    decreases 12 - m
  {
    if dayOfYear < DaysBefore(y, m + 1) then m else MonthOf(y, dayOfYear, m + 1)
  }

  lemma MonthsFillTheYear(y: int)
    ensures DaysBefore(y, 13) == DaysInYear(y)
  {
    assert DaysBefore(y, 1) == 0;
    assert DaysBefore(y, 3) == 31 + DaysInMonth(y, 2);
    assert DaysBefore(y, 5) == DaysBefore(y, 3) + 31 + 30;
    assert DaysBefore(y, 7) == DaysBefore(y, 5) + 31 + 30;
    assert DaysBefore(y, 9) == DaysBefore(y, 7) + 31 + 31;
    assert DaysBefore(y, 11) == DaysBefore(y, 9) + 30 + 31;
  }

  /** The date of a day number: getUTCFullYear, getUTCMonth + 1 and getUTCDate. */
  function DateOf(n: int): (d: Date)
    ensures Valid(d) && DayNumber(d) == n
  {
    var y := YearOf(n, 1970);
    YearLength(y);
    MonthsFillTheYear(y);
    var dayOfYear := n - FirstDayOf(y);
    var m := MonthOf(y, dayOfYear, 1);
    Date(y, m, dayOfYear - DaysBefore(y, m) + 1)
  }

  // Order -----------------------------------------------------------------------------------------

  predicate Earlier(a: Date, b: Date) {
    a.year < b.year || (a.year == b.year && (a.month < b.month || (a.month == b.month && a.day < b.day)))
  }

  lemma {:induction false} MonthsInOrder(y: int, a: int, b: int)
    requires 1 <= a <= b <= 13
    ensures DaysBefore(y, a) <= DaysBefore(y, b)
    ensures a < b ==> DaysBefore(y, a) + DaysInMonth(y, a) <= DaysBefore(y, b)
    decreases b
  {
    if a < b {
      MonthsInOrder(y, a, b - 1);
    }
  }

  lemma {:induction false} YearsInOrder(a: int, b: int)
    requires a <= b
    ensures FirstDayOf(a) <= FirstDayOf(b)
    ensures a < b ==> FirstDayOf(a + 1) <= FirstDayOf(b)
    decreases b - a
  {
    if a < b {
      YearsInOrder(a, b - 1);
      YearLength(b - 1);
    }
  }

  lemma WithinItsYear(d: Date)
    requires Valid(d)
    ensures FirstDayOf(d.year) <= DayNumber(d) < FirstDayOf(d.year + 1)
  {
    MonthsInOrder(d.year, 1, d.month);
    MonthsInOrder(d.year, d.month, 13);
    MonthsFillTheYear(d.year);
    YearLength(d.year);
  }

  lemma EarlierIsSmaller(a: Date, b: Date)
    requires Valid(a) && Valid(b) && Earlier(a, b)
    ensures DayNumber(a) < DayNumber(b)
  {
    if a.year < b.year {
      WithinItsYear(a);
      WithinItsYear(b);
      YearsInOrder(a.year, b.year);
    } else if a.month < b.month {
      MonthsInOrder(a.year, a.month, b.month);
    }
  }

  /** Day numbers are exactly the calendar order, so no two dates share one. */
  lemma DayNumberOrder(a: Date, b: Date)
    requires Valid(a) && Valid(b)
    ensures Earlier(a, b) <==> DayNumber(a) < DayNumber(b)
    ensures a == b <==> DayNumber(a) == DayNumber(b)
  {
    if Earlier(a, b) {
      EarlierIsSmaller(a, b);
    } else if Earlier(b, a) {
      EarlierIsSmaller(b, a);
    }
  }

  /** Dates and day numbers are in one-to-one correspondence. */
  lemma DateRoundTrip(d: Date)
    requires Valid(d)
    ensures DateOf(DayNumber(d)) == d
  {
    DayNumberOrder(DateOf(DayNumber(d)), d);
  }

  // Text ------------------------------------------------------------------------------------------

  function Pad2(n: nat): string {
    var s := Decimal(n);
    if |s| < 2 then "0" + s else s
  }

  /** The template literal: the year is not padded. */
  function Format(d: Date): string
    requires Valid(d)
  {
    Signed(d.year) + "-" + Pad2(d.month) + "-" + Pad2(d.day)
  }

  predicate HasDayShape(s: string) {
    |s| == 10 && s[4] == '-' && s[7] == '-' && AllDigits(s[..4]) && AllDigits(s[5..7]) && AllDigits(s[8..])
  }

  function Parse(s: string): Option<Date> {
    if HasDayShape(s) then
      var d := Date(Num(s[..4]), Num(s[5..7]), Num(s[8..]));
      if Valid(d) then Some(d) else None
    else None
  }

  /** A YYYY-MM-DD string that names a day. */
  predicate IsDay(s: string) {
    Parse(s).Some?
  }

  function DayOf(s: string): int
    requires IsDay(s)
  {
    DayNumber(Parse(s).value)
  }

  lemma Pad2IsTwoDigits(n: nat)
    requires n < 100
    ensures |Pad2(n)| == 2 && AllDigits(Pad2(n)) && Num(Pad2(n)) == n
  {
    NumOfDecimal(n);
    if n < 10 {
      assert Pad2(n)[..1] == "0" && Num("0") == 0;
    }
  }

  lemma DecimalWidth(n: nat)
    ensures |Decimal(n)| == 4 <==> 1000 <= n <= 9999
    ensures n >= 10000 ==> |Decimal(n)| > 4
  {
    if n >= 10 && n / 10 >= 10 && n / 100 >= 10 {
      assert |Decimal(n)| == |Decimal(n / 10)| + 1;
      assert |Decimal(n / 10)| == |Decimal(n / 10 / 10)| + 1;
      assert |Decimal(n / 10 / 10)| == |Decimal(n / 10 / 10 / 10)| + 1;
    }
  }

  /** The formatted text is read back as the same date exactly when the year has four digits. */
  lemma FormatIsDayIff(d: Date)
    requires Valid(d)
    ensures IsDay(Format(d)) <==> 1000 <= d.year <= 9999
    ensures IsDay(Format(d)) ==> Parse(Format(d)) == Some(d)
  {
    var s, yyyy, mm, dd := Format(d), Signed(d.year), Pad2(d.month), Pad2(d.day);
    Pad2IsTwoDigits(d.month);
    Pad2IsTwoDigits(d.day);
    assert |s| == |yyyy| + 6;
    if d.year >= 0 {
      DecimalWidth(d.year);
      NumOfDecimal(d.year);
      if |yyyy| == 4 {
        assert s[..4] == yyyy && s[5..7] == mm && s[8..] == dd;
      }
    } else if |s| == 10 {
      assert s[..4] == yyyy && !IsDigit(s[..4][0]);
    }
  }

  lemma ParseThenFormat(s: string)
    requires IsDay(s) && Parse(s).value.year >= 1000
    ensures Format(Parse(s).value) == s
  {
    var d := Parse(s).value;
    NumBelow(s[..4]);
    FormatIsDayIff(d);
    var t := Format(d);
    assert Parse(t) == Some(d);
    SameNumber(s[..4], t[..4]);
    SameNumber(s[5..7], t[5..7]);
    SameNumber(s[8..], t[8..]);
    assert s == s[..4] + "-" + s[5..7] + "-" + s[8..];
    assert t == t[..4] + "-" + t[5..7] + "-" + t[8..];
  }

  lemma NumBelow(s: string)
    requires AllDigits(s) && |s| == 4
    ensures Num(s) <= 9999
  {
    assert s[..3][..2] == s[..2] && s[..2][..1] == s[..1] && s[..1][..0] == "";
    assert Num(s[..1]) <= 9;
    assert Num(s[..2]) <= 99;
    assert Num(s[..3]) <= 999;
  }

  // utcDaySubtract ----------------------------------------------------------------------------------

  /** What every part of an invalid Date formats to. */
  const INVALID := "NaN-NaN-NaN"

  /** A Date holds at most 8.64e15 milliseconds to either side of the epoch. */
  const MAX_DAY := 100_000_000

  function UtcDaySubtract(day: string, n: int): string {
    if IsDay(day) && -MAX_DAY <= DayOf(day) - n <= MAX_DAY then Format(DateOf(DayOf(day) - n)) else INVALID
  }

  /** 1000-01-01 and 9999-12-31. */
  const FIRST := FirstDayOf(1000)
  const LAST := FirstDayOf(10000) - 1

  lemma RangeOfDays(d: Date)
    requires Valid(d)
    ensures 1000 <= d.year <==> FIRST <= DayNumber(d)
    ensures d.year <= 9999 <==> DayNumber(d) <= LAST
  {
    WithinItsYear(d);
    if d.year < 1000 {
      YearsInOrder(d.year + 1, 1000);
    } else {
      YearsInOrder(1000, d.year);
    }
    if d.year <= 9999 {
      YearsInOrder(d.year + 1, 10000);
    } else {
      YearsInOrder(10000, d.year);
    }
  }

  lemma FormatOfDay(k: int)
    ensures IsDay(Format(DateOf(k))) <==> FIRST <= k <= LAST
    ensures IsDay(Format(DateOf(k))) ==> DayOf(Format(DateOf(k))) == k
  {
    var d := DateOf(k);
    RangeOfDays(d);
    FormatIsDayIff(d);
  }

  lemma FourDigitYearsFit()
    ensures -MAX_DAY <= FIRST && LAST <= MAX_DAY && !IsDay(INVALID)
  {
    assert |INVALID| == 11;
  }

  /**
    The result is a YYYY-MM-DD day exactly when its year has four digits, and then it is n days earlier.
  */
  lemma SubtractLowersByN(s: string, n: int)
    requires IsDay(s)
    ensures var r := UtcDaySubtract(s, n);
            && (IsDay(r) <==> FIRST <= DayOf(s) - n <= LAST)
            && (IsDay(r) ==> DayOf(r) == DayOf(s) - n)
  {
    var k, r := DayOf(s) - n, UtcDaySubtract(s, n);
    FourDigitYearsFit();
    FormatOfDay(k);
    if -MAX_DAY <= k <= MAX_DAY {
      assert r == Format(DateOf(k));
    } else {
      assert r == INVALID;
    }
  }

  /** Below year 1000 the missing padding shows: the day before 1000-01-01 is written 999-12-31. */
  lemma YearBelow1000()
    ensures UtcDaySubtract("1000-01-01", 1) == "999-12-31"
    ensures IsDay("0999-12-31") && UtcDaySubtract("1000-01-01", 1) != "0999-12-31"
  {
    FirstOf1000();
    LastOf999();
    LastOf999Text();
    FourDigitYearsFit();
    SubtractTo("1000-01-01", 1, Date(999, 12, 31));
  }

  lemma SubtractTo(s: string, n: int, d: Date)
    requires IsDay(s) && Valid(d) && DayNumber(d) == DayOf(s) - n && -MAX_DAY <= DayNumber(d) <= MAX_DAY
    ensures UtcDaySubtract(s, n) == Format(d)
  {
    DateRoundTrip(d);
  }

  lemma FirstOf1000()
    ensures Parse("1000-01-01") == Some(Date(1000, 1, 1))
    ensures DayOf("1000-01-01") == FIRST
  {
    Literals();
    assert "1000-01-01"[..4] == "1000" && "1000-01-01"[5..7] == "01" && "1000-01-01"[8..] == "01";
  }

  lemma LastOf999()
    ensures Valid(Date(999, 12, 31)) && DayNumber(Date(999, 12, 31)) == FIRST - 1
    ensures Parse("0999-12-31") == Some(Date(999, 12, 31)) && DayOf("0999-12-31") == FIRST - 1
  {
    Literals();
    assert "0999-12-31"[..4] == "0999" && "0999-12-31"[5..7] == "12" && "0999-12-31"[8..] == "31";
    YearLength(999);
    MonthsFillTheYear(999);
  }

  lemma LastOf999Text()
    ensures Valid(Date(999, 12, 31)) && Format(Date(999, 12, 31)) == "999-12-31"
  {
    assert Decimal(9) == "9" && Decimal(99) == "99" && Decimal(999) == "999";
    assert Decimal(1) == "1" && Decimal(12) == "12" && Pad2(12) == "12";
    assert Decimal(3) == "3" && Decimal(31) == "31" && Pad2(31) == "31";
  }

  lemma Literals()
    ensures Num("1000") == 1000 && Num("01") == 1 && Num("0999") == 999 && Num("12") == 12 && Num("31") == 31
  {
    assert "1000"[..3] == "100" && "100"[..2] == "10" && "10"[..1] == "1" && "1"[..0] == "";
    assert "0999"[..3] == "099" && "099"[..2] == "09" && "09"[..1] == "0" && "0"[..0] == "";
    assert "01"[..1] == "0" && "12"[..1] == "1" && "31"[..1] == "3" && "3"[..0] == "";
    assert Num("1") == 1 && Num("0") == 0 && Num("3") == 3;
  }

  /** Two subtractions are one, if the day between them can be written down. */
  lemma SubtractComposes(s: string, m: int, n: int)
    requires IsDay(s) && FIRST <= DayOf(s) - m <= LAST
    ensures UtcDaySubtract(UtcDaySubtract(s, m), n) == UtcDaySubtract(s, m + n)
  {
    SubtractLowersByN(s, m);
  }

  /** Subtracting n and then -n gives the day back exactly if it has a four-digit year itself. */
  lemma SubtractInvertsIff(s: string, n: int)
    requires IsDay(s) && FIRST <= DayOf(s) - n <= LAST
    ensures UtcDaySubtract(UtcDaySubtract(s, n), -n) == s <==> FIRST <= DayOf(s)
  {
    SubtractLowersByN(s, n);
    if FIRST <= DayOf(s) {
      AddBack(s, UtcDaySubtract(s, n), n);
    } else {
      SubtractLowersByN(UtcDaySubtract(s, n), -n);
    }
  }

  lemma AddBack(s: string, r: string, n: int)
    requires IsDay(s) && IsDay(r) && DayOf(r) == DayOf(s) - n && FIRST <= DayOf(s)
    ensures UtcDaySubtract(r, -n) == s
  {
    var d := Parse(s).value;
    NumBelow(s[..4]);
    RangeOfDays(d);
    FourDigitYearsFit();
    SubtractTo(r, -n, d);
    ParseThenFormat(s);
  }

  // ORDER BY day DESC, on text ------------------------------------------------------------------------

  predicate TextBefore(a: string, b: string) {
    if a == "" || b == "" then a == "" && b != ""
    else a[0] < b[0] || (a[0] == b[0] && TextBefore(a[1..], b[1..]))
  }

  lemma {:induction false} TextBeforeParts(a: string, b: string, c: string, d: string)
    requires |a| == |c|
    ensures TextBefore(a + b, c + d) <==> TextBefore(a, c) || (a == c && TextBefore(b, d))
  {
    if a == "" {
      assert a + b == b && c + d == d;
    } else {
      TextBeforeParts(a[1..], b, c[1..], d);
      assert (a + b)[1..] == a[1..] + b && (c + d)[1..] == c[1..] + d;
      assert a == [a[0]] + a[1..] && c == [c[0]] + c[1..];
    }
  }

  lemma {:induction false} DigitsInOrder(a: string, b: string)
    requires AllDigits(a) && AllDigits(b) && |a| == |b|
    ensures TextBefore(a, b) <==> Num(a) < Num(b)
  {
    if a != "" {
      var i := |a| - 1;
      DigitsInOrder(a[..i], b[..i]);
      TextBeforeParts(a[..i], [a[i]], b[..i], [b[i]]);
      assert a == a[..i] + [a[i]] && b == b[..i] + [b[i]];
      if Num(a[..i]) == Num(b[..i]) {
        SameNumber(a[..i], b[..i]);
      }
    }
  }

  /** Comparing YYYY-MM-DD strings as text compares the days, so ORDER BY day DESC lists later days first. */
  lemma TextOrderIsDayOrder(s: string, t: string)
    requires IsDay(s) && IsDay(t)
    ensures TextBefore(s, t) <==> DayOf(s) < DayOf(t)
    ensures s == t <==> DayOf(s) == DayOf(t)
  {
    var a, b := Parse(s).value, Parse(t).value;
    DayNumberOrder(a, b);
    assert s == s[..4] + ("-" + (s[5..7] + ("-" + s[8..])));
    assert t == t[..4] + ("-" + (t[5..7] + ("-" + t[8..])));
    TextBeforeParts(s[..4], "-" + (s[5..7] + ("-" + s[8..])), t[..4], "-" + (t[5..7] + ("-" + t[8..])));
    TextBeforeParts("-", s[5..7] + ("-" + s[8..]), "-", t[5..7] + ("-" + t[8..]));
    TextBeforeParts(s[5..7], "-" + s[8..], t[5..7], "-" + t[8..]);
    TextBeforeParts("-", s[8..], "-", t[8..]);
    DigitsInOrder(s[..4], t[..4]);
    DigitsInOrder(s[5..7], t[5..7]);
    DigitsInOrder(s[8..], t[8..]);
    PartsDecide(s, t);
  }

  lemma PartsDecide(s: string, t: string)
    requires IsDay(s) && IsDay(t)
    ensures s[..4] == t[..4] <==> Parse(s).value.year == Parse(t).value.year
    ensures s[5..7] == t[5..7] <==> Parse(s).value.month == Parse(t).value.month
    ensures s[8..] == t[8..] <==> Parse(s).value.day == Parse(t).value.day
  {
    if Parse(s).value.year == Parse(t).value.year {
      SameNumber(s[..4], t[..4]);
    }
    if Parse(s).value.month == Parse(t).value.month {
      SameNumber(s[5..7], t[5..7]);
    }
    if Parse(s).value.day == Parse(t).value.day {
      SameNumber(s[8..], t[8..]);
    }
  }
}
