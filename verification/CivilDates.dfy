/** Calendar arithmetic on date strings, as src/token-usage/timezone.ts does it: dates are written
    as in `full-date` (section 5.6 of RFC 3339), compared as strings, and shifted through day
    numbers. */
module CivilDates {

  datatype Civil = Civil(year: nat, month: nat, day: nat)

  // ---------------------------------------------------------------- the proleptic Gregorian calendar

  predicate Leap(year: nat) {
    year % 4 == 0 && (year % 100 != 0 || year % 400 == 0)
  }

  function DaysInYear(year: nat): nat {
    if Leap(year) then 366 else 365
  }

  function DaysInMonth(year: nat, month: nat): nat {
    if month == 2 then (if Leap(year) then 29 else 28)
    else if month == 4 || month == 6 || month == 9 || month == 11 then 30
    else 31
  }

  predicate ValidDate(c: Civil) {
    c.year >= 1 && 1 <= c.month <= 12 && 1 <= c.day <= DaysInMonth(c.year, c.month)
  }

  /** Days from the first day of year 1 to the first day of `year`. */
  function DaysBeforeYear(year: nat): nat
    requires year >= 1
  {
    365 * (year - 1) + (year - 1) / 4 - (year - 1) / 100 + (year - 1) / 400
  }

  function DaysBeforeMonth(year: nat, month: nat): nat
    requires month >= 1
  {
    if month == 1 then 0 else DaysBeforeMonth(year, month - 1) + DaysInMonth(year, month - 1)
  }

  /** The day number; day 0 is the first of January of year 1. */
  function DayNumber(c: Civil): nat
    requires ValidDate(c)
  {
    DaysBeforeYear(c.year) + DaysBeforeMonth(c.year, c.month) + c.day - 1
  }

  lemma Quotients(year: nat)
    requires year >= 1
    ensures year / 4 == (year - 1) / 4 + (if year % 4 == 0 then 1 else 0)
    ensures year / 100 == (year - 1) / 100 + (if year % 100 == 0 then 1 else 0)
    ensures year / 400 == (year - 1) / 400 + (if year % 400 == 0 then 1 else 0)
  {
  }

  lemma Multiples(year: nat)
    ensures year % 400 == 0 ==> year % 100 == 0
    ensures year % 100 == 0 ==> year % 4 == 0
  {
    if year % 400 == 0 {
      MultipleOf(year, 100, 4);
    }
    if year % 100 == 0 {
      MultipleOf(year, 4, 25);
    }
  }

  lemma MultipleOf(n: nat, a: nat, b: nat)
    requires a > 0 && b > 0 && n % (a * b) == 0
    ensures n % a == 0
  {
    var q := n / (a * b);
    assert n == a * b * q == a * (b * q);
    DivisionIsUnique(n, a, b * q);
  }

  lemma MultiplesAreFarApart(a: nat, k: int)
    requires a > 0
    ensures k >= 1 ==> a * k >= a
    ensures k <= -1 ==> a * k + a <= 0
  {
  }

  lemma DivisionIsUnique(n: nat, a: nat, q: nat)
    requires a > 0 && n == a * q
    ensures n % a == 0
  {
    var p: int := n / a;
    assert n == a * p + n % a;
    assert a * (q - p) == n % a;
    MultiplesAreFarApart(a, q - p);
  }

  lemma YearAdvances(year: nat)
    requires year >= 1
    ensures DaysBeforeYear(year + 1) == DaysBeforeYear(year) + DaysInYear(year)
  {
    Quotients(year);
    Multiples(year);
  }

  /** A year is its twelve months. */
  lemma MonthsFillYear(year: nat)
    ensures DaysBeforeMonth(year, 13) == DaysInYear(year)
    ensures forall m, n | 1 <= m < n <= 13 :: DaysBeforeMonth(year, m) + DaysInMonth(year, m) <= DaysBeforeMonth(year, n)
  {
    assert DaysBeforeMonth(year, 2) == 31;
    var feb := DaysInMonth(year, 2);
    assert DaysBeforeMonth(year, 3) == 31 + feb;
    assert DaysBeforeMonth(year, 4) == 62 + feb;
    assert DaysBeforeMonth(year, 5) == 92 + feb;
    assert DaysBeforeMonth(year, 6) == 123 + feb;
    assert DaysBeforeMonth(year, 7) == 153 + feb;
    assert DaysBeforeMonth(year, 8) == 184 + feb;
    assert DaysBeforeMonth(year, 9) == 215 + feb;
    assert DaysBeforeMonth(year, 10) == 245 + feb;
    assert DaysBeforeMonth(year, 11) == 276 + feb;
    assert DaysBeforeMonth(year, 12) == 306 + feb;
    assert DaysBeforeMonth(year, 13) == 337 + feb;
  }

  lemma {:induction false} YearsAreMonotonic(a: nat, b: nat)
    requires 1 <= a <= b
    ensures DaysBeforeYear(a) <= DaysBeforeYear(b)
    ensures a < b ==> DaysBeforeYear(a) + DaysInYear(a) <= DaysBeforeYear(b)
    decreases b - a
  {
    if a < b {
      YearAdvances(a);
      YearsAreMonotonic(a + 1, b);
    }
  }

  lemma DayStaysInYear(c: Civil)
    requires ValidDate(c)
    ensures DaysBeforeYear(c.year) <= DayNumber(c) < DaysBeforeYear(c.year) + DaysInYear(c.year)
  {
    MonthsFillYear(c.year);
    assert DaysBeforeMonth(c.year, c.month) + DaysInMonth(c.year, c.month) <= DaysBeforeMonth(c.year, 13);
  }

  predicate Earlier(a: Civil, b: Civil) {
    a.year < b.year || (a.year == b.year && (a.month < b.month || (a.month == b.month && a.day < b.day)))
  }

  lemma EarlierHasSmallerNumber(a: Civil, b: Civil)
    requires ValidDate(a) && ValidDate(b) && Earlier(a, b)
    ensures DayNumber(a) < DayNumber(b)
  {
    DayStaysInYear(a);
    DayStaysInYear(b);
    if a.year < b.year {
      YearsAreMonotonic(a.year, b.year);
    } else if a.month < b.month {
      MonthsFillYear(a.year);
    }
  }

  /** Calendar order is day order, so a day number belongs to one date. */
  lemma OrderIsDayOrder(a: Civil, b: Civil)
    requires ValidDate(a) && ValidDate(b)
    ensures Earlier(a, b) <==> DayNumber(a) < DayNumber(b)
    ensures a == b <==> DayNumber(a) == DayNumber(b)
  {
    if Earlier(a, b) {
      EarlierHasSmallerNumber(a, b);
    } else if Earlier(b, a) {
      EarlierHasSmallerNumber(b, a);
    }
  }

  // ---------------------------------------------------------------- from a day number to its date

  /** The year of day `n`, searched upwards from `year`. */
  function YearFrom(n: nat, year: nat): (r: nat)
    requires year >= 1 && DaysBeforeYear(year) <= n
    ensures r >= 1 && DaysBeforeYear(r) <= n < DaysBeforeYear(r) + DaysInYear(r)
    decreases n - DaysBeforeYear(year)
  {
    YearAdvances(year);
    if n < DaysBeforeYear(year + 1) then year else YearFrom(n, year + 1)
  }

  /** The month of the day that is `rest` days into `year`, searched upwards from `month`. */
  function MonthFrom(year: nat, rest: nat, month: nat): (r: nat)
    requires 1 <= month <= 12 && DaysBeforeMonth(year, month) <= rest < DaysInYear(year)
    ensures 1 <= r <= 12 && DaysBeforeMonth(year, r) <= rest < DaysBeforeMonth(year, r) + DaysInMonth(year, r)
    decreases 12 - month
  {
    MonthsFillYear(year);
    if rest < DaysBeforeMonth(year, month) + DaysInMonth(year, month) then month
    else MonthFrom(year, rest, month + 1)
  }

  function FromDay(n: nat): (c: Civil)
    ensures ValidDate(c) && DayNumber(c) == n
  {
    var year := YearFrom(n, 1);
    var rest := n - DaysBeforeYear(year);
    var month := MonthFrom(year, rest, 1);
    Civil(year, month, rest - DaysBeforeMonth(year, month) + 1)
  }

  lemma FromDayOfNumber(c: Civil)
    requires ValidDate(c)
    ensures FromDay(DayNumber(c)) == c
  {
    OrderIsDayOrder(FromDay(DayNumber(c)), c);
  }

  // ---------------------------------------------------------------- decimal strings

  predicate IsDigit(c: char) {
    '0' <= c <= '9'
  }

  function Digit(d: nat): (c: char)
    requires d < 10
    ensures IsDigit(c)
  {
    (48 + d) as char
  }

  function Decimal(n: nat): (s: string)
    ensures |s| >= 1
    ensures forall k | 0 <= k < |s| :: IsDigit(s[k])
  {
    if n < 10 then [Digit(n)] else Decimal(n / 10) + [Digit(n % 10)]
  }

  /** `padStart(2, '0')` */
  function Pad2(n: nat): (s: string)
    ensures forall k | 0 <= k < |s| :: IsDigit(s[k])
  {
    if |Decimal(n)| < 2 then "0" + Decimal(n) else Decimal(n)
  }

  function DigitValue(c: char): nat {
    if IsDigit(c) then c as int - 48 else 0
  }

  function ParseInt(s: string): nat {
    if s == "" then 0 else 10 * ParseInt(s[..|s| - 1]) + DigitValue(s[|s| - 1])
  }

  lemma ParseAppend(s: string, c: char)
    ensures ParseInt(s + [c]) == 10 * ParseInt(s) + DigitValue(c)
  {
    assert (s + [c])[..|s|] == s;
  }

  lemma {:induction false} ParseDecimal(n: nat)
    ensures ParseInt(Decimal(n)) == n
  {
    if n < 10 {
      ParseAppend("", Digit(n));
      assert "" + [Digit(n)] == Decimal(n);
    } else {
      ParseDecimal(n / 10);
      ParseAppend(Decimal(n / 10), Digit(n % 10));
    }
  }

  lemma {:induction false} ParseLeadingZero(s: string)
    ensures ParseInt("0" + s) == ParseInt(s)
  {
    if s == "" {
      ParseAppend("", '0');
      assert "" + "0" == "0" + s;
    } else {
      var m := |s| - 1;
      var front, last := s[..m], s[m];
      assert s == front + [last] && "0" + s == ("0" + front) + [last];
      hide *;
      ParseLeadingZero(front);
      ParseAppend("0" + front, last);
      ParseAppend(front, last);
    }
  }

  /** `split('-')` */
  function Split(s: string): (parts: seq<string>)
    ensures |parts| >= 1
  {
    if s == "" then [""]
    else if s[0] == '-' then [""] + Split(s[1..])
    else
      var rest := Split(s[1..]);
      [[s[0]] + rest[0]] + rest[1..]
  }

  lemma {:induction false} SplitAtDash(a: string, b: string)
    requires '-' !in a
    ensures Split(a + "-" + b) == [a] + Split(b)
    ensures Split(a) == [a]
  {
    var s := a + "-" + b;
    if a == "" {
      assert s[1..] == b;
    } else {
      assert s[1..] == a[1..] + "-" + b;
      assert forall k | 1 <= k < |a| :: a[k] == a[1..][k - 1];
      SplitAtDash(a[1..], b);
      assert [a[0]] + a[1..] == a;
    }
  }

  /** The order in which the program compares strings. */
  predicate Less(a: string, b: string) {
    b != "" && (a == "" || a[0] < b[0] || (a[0] == b[0] && Less(a[1..], b[1..])))
  }

  predicate AtMost(a: string, b: string) {
    a == b || Less(a, b)
  }

  lemma {:induction false} OneOrder(a: string, b: string)
    ensures Less(a, b) ==> a != b && !Less(b, a)
    ensures AtMost(a, b) || Less(b, a)
  {
    if a != "" && b != "" && a[0] == b[0] {
      OneOrder(a[1..], b[1..]);
      assert a == [a[0]] + a[1..] && b == [b[0]] + b[1..];
    }
  }

  lemma {:induction false} LessIsTransitive(a: string, b: string, c: string)
    requires Less(a, b) && Less(b, c)
    ensures Less(a, c)
  {
    if a != "" && a[0] == b[0] == c[0] {
      LessIsTransitive(a[1..], b[1..], c[1..]);
    }
  }

  lemma AtMostIsTransitive(a: string, b: string, c: string)
    requires AtMost(a, b) && AtMost(b, c)
    ensures AtMost(a, c)
  {
    if a != b && b != c {
      LessIsTransitive(a, b, c);
    }
  }

  /** Strings with heads of equal length compare by their heads first. */
  lemma {:induction false} LessByParts(a: string, b: string, a': string, b': string)
    requires |a| == |b|
    ensures Less(a + a', b + b') <==> Less(a, b) || (a == b && Less(a', b'))
  {
    if a == "" {
      assert a + a' == a' && b + b' == b';
    } else {
      assert (a + a')[1..] == a[1..] + a' && (b + b')[1..] == b[1..] + b';
      LessByParts(a[1..], b[1..], a', b');
      assert a == [a[0]] + a[1..] && b == [b[0]] + b[1..];
    }
  }

  lemma {:induction false} DecimalOrder(m: nat, n: nat)
    requires |Decimal(m)| == |Decimal(n)|
    ensures Less(Decimal(m), Decimal(n)) <==> m < n
    ensures Decimal(m) == Decimal(n) <==> m == n
  {
    ParseDecimal(m);
    ParseDecimal(n);
    if m >= 10 && n >= 10 {
      DecimalOrder(m / 10, n / 10);
      LessByParts(Decimal(m / 10), Decimal(n / 10), [Digit(m % 10)], [Digit(n % 10)]);
      assert Less([Digit(m % 10)], [Digit(n % 10)]) <==> m % 10 < n % 10;
    } else {
      assert m < 10 && n < 10;
    }
  }

  /** How many digits a number has, as far as years and months need it. */
  lemma DecimalLength(n: nat)
    ensures n < 10 <==> |Decimal(n)| == 1
    ensures 10 <= n < 100 <==> |Decimal(n)| == 2
    ensures 1000 <= n < 10000 <==> |Decimal(n)| == 4
  {
    assert |Decimal(n)| == if n < 10 then 1 else |Decimal(n / 10)| + 1;
    assert |Decimal(n / 10)| == if n / 10 < 10 then 1 else |Decimal(n / 10 / 10)| + 1;
    assert |Decimal(n / 10 / 10)| == if n / 10 / 10 < 10 then 1 else |Decimal(n / 10 / 10 / 10)| + 1;
    assert |Decimal(n / 10 / 10 / 10)| == if n / 10 / 10 / 10 < 10 then 1 else |Decimal(n / 10 / 10 / 10 / 10)| + 1;
  }

  lemma PadOrder(m: nat, n: nat)
    requires m < 100 && n < 100
    ensures |Pad2(m)| == |Pad2(n)| == 2
    ensures Less(Pad2(m), Pad2(n)) <==> m < n
    ensures Pad2(m) == Pad2(n) <==> m == n
    ensures ParseInt(Pad2(m)) == m
  {
    DecimalLength(m);
    DecimalLength(n);
    ParseDecimal(m);
    ParseDecimal(n);
    ParseLeadingZero(Decimal(m));
    if |Decimal(m)| == |Decimal(n)| {
      DecimalOrder(m, n);
      LessByParts("0", "0", Decimal(m), Decimal(n));
    } else {
      FirstDigitOfTwo(m);
      FirstDigitOfTwo(n);
    }
  }

  lemma FirstDigitOfTwo(n: nat)
    ensures 10 <= n < 100 ==> |Decimal(n)| == 2 && Decimal(n)[0] > '0'
  {
    if 10 <= n < 100 {
      assert Decimal(n) == [Digit(n / 10)] + [Digit(n % 10)];
    }
  }

  // ---------------------------------------------------------------- date strings

  function Format(c: Civil): string {
    Decimal(c.year) + "-" + (Pad2(c.month) + "-" + Pad2(c.day))
  }

  /** `split('-').map(parseInt)`, with the defaults the program has for missing parts. */
  function Parse(s: string): Civil {
    var parts := Split(s);
    Civil(ParseInt(parts[0]),
          if |parts| > 1 then ParseInt(parts[1]) else 1,
          if |parts| > 2 then ParseInt(parts[2]) else 1)
  }

  lemma ParseFormat(c: Civil)
    requires c.month < 100 && c.day < 100
    ensures Parse(Format(c)) == c
  {
    SplitAtDash(Decimal(c.year), Pad2(c.month) + "-" + Pad2(c.day));
    SplitAtDash(Pad2(c.month), Pad2(c.day));
    SplitAtDash(Pad2(c.day), "");
    ParseDecimal(c.year);
    PadOrder(c.month, c.day);
    PadOrder(c.day, c.month);
  }

  predicate FourDigitYear(c: Civil) {
    1000 <= c.year <= 9999
  }

  /** A `full-date` with a four-digit year. */
  predicate FullDate(s: string) {
    ValidDate(Parse(s)) && FourDigitYear(Parse(s)) && s == Format(Parse(s))
  }

  lemma FormatIsFullDate(c: Civil)
    requires ValidDate(c) && FourDigitYear(c)
    ensures FullDate(Format(c)) && Parse(Format(c)) == c
  {
    ParseFormat(c);
  }

  function MonthDay(c: Civil): string {
    Pad2(c.month) + "-" + Pad2(c.day)
  }

  lemma MonthDayOrder(c: Civil, d: Civil)
    requires ValidDate(c) && ValidDate(d)
    ensures Less(MonthDay(c), MonthDay(d)) <==> c.month < d.month || (c.month == d.month && c.day < d.day)
  {
    PadOrder(c.month, d.month);
    PadOrder(c.day, d.day);
    LessByParts(Pad2(c.month), Pad2(d.month), "-" + Pad2(c.day), "-" + Pad2(d.day));
    LessByParts("-", "-", Pad2(c.day), Pad2(d.day));
    assert MonthDay(c) == Pad2(c.month) + ("-" + Pad2(c.day));
    assert MonthDay(d) == Pad2(d.month) + ("-" + Pad2(d.day));
  }

  /** Formatted dates with four-digit years compare as the dates do. */
  lemma FormatOrder(c: Civil, d: Civil)
    requires ValidDate(c) && ValidDate(d) && FourDigitYear(c) && FourDigitYear(d)
    ensures Less(Format(c), Format(d)) <==> Earlier(c, d)
  {
    DecimalLength(c.year);
    DecimalLength(d.year);
    DecimalOrder(c.year, d.year);
    MonthDayOrder(c, d);
    LessByParts(Decimal(c.year), Decimal(d.year), "-" + MonthDay(c), "-" + MonthDay(d));
    LessByParts("-", "-", MonthDay(c), MonthDay(d));
    assert Format(c) == Decimal(c.year) + ("-" + MonthDay(c));
    assert Format(d) == Decimal(d.year) + ("-" + MonthDay(d));
  }

  /** The day number of a date string. */
  function DayOf(s: string): nat
    requires FullDate(s)
  {
    DayNumber(Parse(s))
  }

  /** On four-digit years, comparing the strings compares the days. */
  lemma StringOrderIsDayOrder(a: string, b: string)
    requires FullDate(a) && FullDate(b)
    ensures Less(a, b) <==> DayOf(a) < DayOf(b)
    ensures a == b <==> DayOf(a) == DayOf(b)
    ensures AtMost(a, b) <==> DayOf(a) <= DayOf(b)
  {
    OrderIsDayOrder(Parse(a), Parse(b));
    FormatOrder(Parse(a), Parse(b));
  }

  /** The first of January 1000 and the last of December 9999. */
  const FIRST_DAY: nat := 364877
  const LAST_DAY: nat := 3652058

  lemma RangeOfFourDigitYears()
    ensures DaysBeforeYear(1000) == FIRST_DAY && DaysBeforeYear(10000) == LAST_DAY + 1
  {
  }

  lemma FourDigitDays(c: Civil)
    requires ValidDate(c)
    ensures FourDigitYear(c) <==> FIRST_DAY <= DayNumber(c) <= LAST_DAY
  {
    RangeOfFourDigitYears();
    DayStaysInYear(c);
    if c.year < 1000 {
      YearsAreMonotonic(c.year, 1000);
    } else if c.year > 9999 {
      YearsAreMonotonic(10000, c.year);
    } else {
      YearsAreMonotonic(1000, c.year);
      YearsAreMonotonic(c.year, 10000);
    }
  }

  lemma DayRange(s: string)
    requires FullDate(s)
    ensures FIRST_DAY <= DayOf(s) <= LAST_DAY
  {
    FourDigitDays(Parse(s));
  }

  /** `shiftDateString`, on days from year 1 on. */
  function ShiftDate(s: string, delta: int): string
    requires FullDate(s) && DayOf(s) + delta >= 0
  {
    Format(FromDay(DayOf(s) + delta))
  }

  /** Shifting moves the day number, for as long as the year keeps four digits. */
  lemma ShiftMovesDay(s: string, delta: int)
    requires FullDate(s) && FIRST_DAY <= DayOf(s) + delta <= LAST_DAY
    ensures FullDate(ShiftDate(s, delta)) && DayOf(ShiftDate(s, delta)) == DayOf(s) + delta
  {
    var c := FromDay(DayOf(s) + delta);
    FourDigitDays(c);
    FormatIsFullDate(c);
  }

  /** Shifts add up, and shifting back undoes a shift. */
  lemma ShiftsAddUp(s: string, j: int, k: int)
    requires FullDate(s) && FIRST_DAY <= DayOf(s) + j <= LAST_DAY && FIRST_DAY <= DayOf(s) + j + k <= LAST_DAY
    ensures FullDate(ShiftDate(s, j))
    ensures FIRST_DAY <= DayOf(ShiftDate(s, j)) + k
    ensures ShiftDate(ShiftDate(s, j), k) == ShiftDate(s, j + k)
    ensures j + k == 0 ==> ShiftDate(ShiftDate(s, j), k) == s
  {
    hide *;
    ShiftMovesDay(s, j);
    ShiftMovesDay(ShiftDate(s, j), k);
    ShiftMovesDay(s, j + k);
    StringOrderIsDayOrder(ShiftDate(ShiftDate(s, j), k), ShiftDate(s, j + k));
    if j + k == 0 {
      StringOrderIsDayOrder(ShiftDate(s, j + k), s);
    }
  }

  // ---------------------------------------------------------------- sequences of days

  const LAST_DATE := "9999-12-31"

  lemma LastDateFormat()
    ensures Format(Civil(9999, 12, 31)) == LAST_DATE
  {
    assert Decimal(9999) == "9999" by {
      assert Decimal(9) == "9" && Decimal(99) == "99" && Decimal(999) == "999";
    }
    assert Pad2(12) == "12" && Pad2(31) == "31";
  }

  lemma LastDateNumber()
    ensures DayNumber(Civil(9999, 12, 31)) == LAST_DAY
  {
    RangeOfFourDigitYears();
    YearAdvances(9999);
    MonthsFillYear(9999);
    assert DaysBeforeMonth(9999, 13) == DaysBeforeMonth(9999, 12) + 31;
  }

  lemma LastDateIsLast()
    ensures FullDate(LAST_DATE) && DayOf(LAST_DATE) == LAST_DAY
  {
    LastDateFormat();
    LastDateNumber();
    FormatIsFullDate(Civil(9999, 12, 31));
  }

  /** `generateDateSequence`: exactly the days from `since` to `until`, in order. Its loop compares
      strings, which is why the last four-digit date is excluded as an end. */
  method GenerateDateSequence(since: string, until: string) returns (dates: seq<string>)
    requires FullDate(since) && FullDate(until) && until != LAST_DATE
    ensures |dates| == if DayOf(since) <= DayOf(until) then DayOf(until) - DayOf(since) + 1 else 0
    ensures forall k | 0 <= k < |dates| :: FullDate(dates[k]) && DayOf(dates[k]) == DayOf(since) + k
  {
    hide *;
    StringOrderIsDayOrder(until, since);
    if Less(until, since) {
      return [];
    }
    LastDateIsLast();
    StringOrderIsDayOrder(until, LAST_DATE);
    DayRange(until);
    DayRange(since);
    dates := [];
    var cur := since;
    while AtMost(cur, until)
      invariant FullDate(cur) && DayOf(cur) == DayOf(since) + |dates| && DayOf(cur) <= DayOf(until) + 1
      invariant forall k | 0 <= k < |dates| :: FullDate(dates[k]) && DayOf(dates[k]) == DayOf(since) + k
      decreases DayOf(until) + 1 - DayOf(cur)
    {
      StringOrderIsDayOrder(cur, until);
      ShiftMovesDay(cur, 1);
      dates := dates + [cur];
      cur := ShiftDate(cur, 1);
    }
    StringOrderIsDayOrder(cur, until);
  }

  /** The last date is followed by a five-digit year, which sorts first. */
  lemma DayAfterLastDate()
    requires FullDate(LAST_DATE) && DayOf(LAST_DATE) == LAST_DAY
    ensures Less(ShiftDate(LAST_DATE, 1), LAST_DATE)
  {
    FirstDayOfFiveDigits();
    assert Format(FromDay(LAST_DAY + 1))[0] == '1';
  }

  lemma FirstDayAfterLast()
    ensures DayNumber(Civil(10000, 1, 1)) == LAST_DAY + 1
  {
    RangeOfFourDigitYears();
    assert DaysBeforeMonth(10000, 1) == 0;
  }

  lemma TenThousandStartsWithOne()
    ensures Decimal(10000)[0] == '1'
  {
    assert Decimal(1) == "1" && Decimal(10)[0] == '1' && Decimal(100)[0] == '1' && Decimal(1000)[0] == '1';
  }

  lemma FirstDayOfFiveDigits()
    ensures Format(FromDay(LAST_DAY + 1)) != "" && Format(FromDay(LAST_DAY + 1))[0] == '1'
  {
    hide FromDay, DayNumber, Decimal, Pad2;
    FirstDayAfterLast();
    FromDayOfNumber(Civil(10000, 1, 1));
    TenThousandStartsWithOne();
  }

  /** The day after `until` still compares as not later exactly when `until` is the last day of
      year 9999: there the loop runs on past its end. */
  lemma LoopOverrunsIff(until: string)
    requires FullDate(until)
    ensures AtMost(ShiftDate(until, 1), until) <==> until == LAST_DATE
  {
    LastDateIsLast();
    DayRange(until);
    StringOrderIsDayOrder(until, LAST_DATE);
    if until == LAST_DATE {
      DayAfterLastDate();
    } else {
      ShiftMovesDay(until, 1);
      StringOrderIsDayOrder(ShiftDate(until, 1), until);
    }
  }

  // ---------------------------------------------------------------- windows

  datatype Window = Window(since: string, until: string)

  /** `calculateRangeWindow`, given the local date of today. */
  function RangeWindow(days: int, today: string): Window
    requires FullDate(today) && DayOf(today) + 1 - days >= 0
  {
    var count := if days < 1 then 1 else days;
    Window(ShiftDate(today, -(count - 1)), today)
  }

  /** The preceding window of the comparison. It counts with the requested days, not with the
      count the current window raised to one. */
  function PreviousWindow(days: int, since: string): Window
    requires FullDate(since) && FIRST_DAY <= DayOf(since) - 1 && FIRST_DAY <= DayOf(since) - days <= LAST_DAY
  {
    DayRange(since);
    ShiftMovesDay(since, -1);
    var until := ShiftDate(since, -1);
    Window(ShiftDate(until, -(days - 1)), until)
  }

  /** How many days a window spans when its ends are compared as days. */
  function Span(w: Window): int
    requires FullDate(w.since) && FullDate(w.until)
  {
    DayOf(w.until) - DayOf(w.since) + 1
  }

  /** The two windows are adjacent and disjoint, and they are equally long exactly when at least
      one day was asked for. */
  lemma WindowsAreAdjacent(days: int, today: string)
    requires FullDate(today)
    requires var count := if days < 1 then 1 else days;
      FIRST_DAY <= DayOf(today) - count && FIRST_DAY <= DayOf(today) - count + 1 - days <= LAST_DAY
    ensures var current := RangeWindow(days, today);
      && FullDate(current.since) && current.until == today
      && Span(current) == (if days < 1 then 1 else days)
      && (var previous := PreviousWindow(days, current.since);
          && FullDate(previous.since) && FullDate(previous.until)
          && DayOf(previous.until) + 1 == DayOf(current.since)
          && Less(previous.until, current.since)
          && Span(previous) == days
          && (Span(previous) == Span(current) <==> days >= 1))
  {
    hide FullDate, DayOf, ShiftDate, Less;
    var count := if days < 1 then 1 else days;
    DayRange(today);
    ShiftMovesDay(today, -(count - 1));
    var since := ShiftDate(today, -(count - 1));
    ShiftMovesDay(since, -1);
    ShiftMovesDay(ShiftDate(since, -1), -(days - 1));
    StringOrderIsDayOrder(ShiftDate(since, -1), since);
  }

  // ---------------------------------------------------------------- weeks

  /** `getUTCDay`: Sunday is 0. The first day of year 1 was a Monday. */
  function DayOfWeek(day: nat): nat {
    (day + 1) % 7
  }

  const MONDAY: nat := 1

  /** The first of January 1970 was a Thursday. */
  lemma EpochWasThursday()
    ensures DayOfWeek(DayNumber(Civil(1970, 1, 1))) == 4
  {
    assert DaysBeforeMonth(1970, 1) == 0;
  }

  /** The start of the activity heatmap. */
  function CalendarSince(until: string): string
    requires FullDate(until) && DayOf(until) >= FIRST_DAY + 90
  {
    var dow := DayOfWeek(DayOf(until));
    ShiftDate(until, -(((dow + 6) % 7) + 7 * 12))
  }

  /** The heatmap starts on a Monday, twelve weeks before the Monday of the week of `until`. */
  lemma HeatmapStartsOnMonday(until: string)
    requires FullDate(until) && DayOf(until) >= FIRST_DAY + 90
    ensures var since := CalendarSince(until);
      && FullDate(since) && DayOfWeek(DayOf(since)) == MONDAY
      && (var monday := DayOf(since) + 84;
          monday <= DayOf(until) < monday + 7 && DayOfWeek(monday) == MONDAY)
  {
    hide FullDate, DayOf, ShiftDate;
    DayRange(until);
    var dow: int := DayOfWeek(DayOf(until));
    ShiftMovesDay(until, -(((dow + 6) % 7) + 7 * 12));
  }
}
