// The Gregorian calendar: dates, day numbers, and the strings the API compares.
module Calendar {

  datatype Civil = Civil(year: nat, month: nat, day: nat)

  predicate IsLeap(y: nat) { y % 4 == 0 && (y % 100 != 0 || y % 400 == 0) }

  function DaysInMonth(y: nat, m: nat): nat {
    if m == 2 then (if IsLeap(y) then 29 else 28)
    else if m == 4 || m == 6 || m == 9 || m == 11 then 30
    else 31
  }

  predicate Valid(c: Civil) {
    1 <= c.year && 1 <= c.month <= 12 && 1 <= c.day <= DaysInMonth(c.year, c.month)
  }

  // The day after, with carry over month and year ends.
  function NextDay(c: Civil): (r: Civil)
    requires Valid(c)
    ensures Valid(r)
  {
    if c.day < DaysInMonth(c.year, c.month) then c.(day := c.day + 1)
    else if c.month < 12 then Civil(c.year, c.month + 1, 1)
    else Civil(c.year + 1, 1, 1)
  }

  // ---- Day numbers: 1 January of year 1 is day 0 ----

  function YearLength(y: nat): nat { if IsLeap(y) then 366 else 365 }

  function DaysBeforeYear(y: nat): nat
    requires 1 <= y
  {
    365 * (y - 1) + (y - 1) / 4 - (y - 1) / 100 + (y - 1) / 400
  }

  function DaysBeforeMonth(y: nat, m: nat): nat
    requires 1 <= m
  {
    if m == 1 then 0 else DaysBeforeMonth(y, m - 1) + DaysInMonth(y, m - 1)
  }

  function DayNumber(c: Civil): nat
    requires Valid(c)
  {
    DaysBeforeYear(c.year) + DaysBeforeMonth(c.year, c.month) + c.day - 1
  }

  lemma Fours(y: nat)
    requires 1 <= y
    ensures y / 4 == (y - 1) / 4 + if y % 4 == 0 then 1 else 0
  {
  }

  lemma Hundreds(y: nat)
    requires 1 <= y
    ensures y / 100 == (y - 1) / 100 + if y % 100 == 0 then 1 else 0
    ensures y % 100 == 0 ==> y % 4 == 0
  {
  }

  lemma FourHundreds(y: nat)
    requires 1 <= y
    ensures y / 400 == (y - 1) / 400 + if y % 400 == 0 then 1 else 0
    ensures y % 400 == 0 ==> y % 100 == 0
  {
  }

  lemma YearStep(y: nat)
    requires 1 <= y
    ensures DaysBeforeYear(y + 1) == DaysBeforeYear(y) + YearLength(y)
  {
    Fours(y);
    Hundreds(y);
    FourHundreds(y);
  }

  lemma TwelveMonths(y: nat)
    ensures DaysBeforeMonth(y, 12) + DaysInMonth(y, 12) == YearLength(y)
  {
    assert DaysBeforeMonth(y, 2) == 31;
    assert DaysBeforeMonth(y, 3) == 31 + DaysInMonth(y, 2);
    assert DaysBeforeMonth(y, 5) == DaysBeforeMonth(y, 3) + 61;
    assert DaysBeforeMonth(y, 7) == DaysBeforeMonth(y, 5) + 61;
    assert DaysBeforeMonth(y, 9) == DaysBeforeMonth(y, 7) + 62;
    assert DaysBeforeMonth(y, 11) == DaysBeforeMonth(y, 9) + 61;
  }

  // The successor date is one day later.
  lemma NextDayNumber(c: Civil)
    requires Valid(c)
    ensures DayNumber(NextDay(c)) == DayNumber(c) + 1
  {
    if c.day == DaysInMonth(c.year, c.month) && c.month == 12 {
      TwelveMonths(c.year);
      YearStep(c.year);
    }
  }

  lemma {:induction false} MonthsGrow(y: nat, m: nat, n: nat)
    requires 1 <= m < n
    ensures DaysBeforeMonth(y, m) + DaysInMonth(y, m) <= DaysBeforeMonth(y, n)
    decreases n
  {
    if m < n - 1 { MonthsGrow(y, m, n - 1); }
  }

  lemma {:induction false} YearsGrow(y: nat, z: nat)
    requires 1 <= y < z
    ensures DaysBeforeYear(y) + YearLength(y) <= DaysBeforeYear(z)
    decreases z
  {
    YearStep(z - 1);
    if y < z - 1 { YearsGrow(y, z - 1); }
  }

  lemma DayInYear(c: Civil)
    requires Valid(c)
    ensures DaysBeforeYear(c.year) <= DayNumber(c) < DaysBeforeYear(c.year) + YearLength(c.year)
  {
    TwelveMonths(c.year);
    if c.month < 12 { MonthsGrow(c.year, c.month, 12); }
  }

  // Year first, then month, then day.
  predicate Before(a: Civil, b: Civil) {
    a.year < b.year || (a.year == b.year && (a.month < b.month || (a.month == b.month && a.day < b.day)))
  }

  lemma BeforeIsLess(a: Civil, b: Civil)
    requires Valid(a) && Valid(b) && Before(a, b)
    ensures DayNumber(a) < DayNumber(b)
  {
    if a.year < b.year {
      DayInYear(a);
      DayInYear(b);
      YearsGrow(a.year, b.year);
    } else if a.month < b.month {
      MonthsGrow(a.year, a.month, b.month);
    }
  }

  // Dates order as their day numbers.
  lemma DatesOrderAsDays(a: Civil, b: Civil)
    requires Valid(a) && Valid(b)
    ensures Before(a, b) <==> DayNumber(a) < DayNumber(b)
    ensures a == b <==> DayNumber(a) == DayNumber(b)
  {
    if Before(a, b) { BeforeIsLess(a, b); }
    if Before(b, a) { BeforeIsLess(b, a); }
  }

  // The date of a day number.
  function CivilOf(n: nat): (c: Civil)
    ensures Valid(c) && DayNumber(c) == n
  {
    if n == 0 then Civil(1, 1, 1)
    else
      NextDayNumber(CivilOf(n - 1));
      NextDay(CivilOf(n - 1))
  }

  lemma DateOfDay(c: Civil)
    requires Valid(c)
    ensures CivilOf(DayNumber(c)) == c
  {
    DatesOrderAsDays(CivilOf(DayNumber(c)), c);
  }

  // ---- An independent day count ----

  // The closed form with years that begin in March, whose months group in fives
  // of 153 days: no table of month lengths and no leap-year test.
  function GregorianDays(y: nat, m: nat, d: nat): int
    requires 1 <= y && 1 <= m <= 12
  {
    var late := if m <= 2 then 1 else 0;
    var year := y - late;
    var month := m + 12 * late - 3;
    (153 * month + 2) / 5 + 365 * year + year / 4 - year / 100 + year / 400 + d - 307
  }

  lemma MonthTable(y: nat, m: nat)
    requires 1 <= m <= 12
    ensures DaysBeforeMonth(y, m) ==
            if m <= 2 then 31 * (m - 1)
            else (153 * (m - 3) + 2) / 5 + if IsLeap(y) then 60 else 59
  {
    assert DaysBeforeMonth(y, 2) == 31;
    assert DaysBeforeMonth(y, 3) == 31 + DaysInMonth(y, 2);
    assert DaysBeforeMonth(y, 5) == DaysBeforeMonth(y, 3) + 61;
    assert DaysBeforeMonth(y, 7) == DaysBeforeMonth(y, 5) + 61;
    assert DaysBeforeMonth(y, 9) == DaysBeforeMonth(y, 7) + 62;
    assert DaysBeforeMonth(y, 11) == DaysBeforeMonth(y, 9) + 61;
  }

  // Day numbers agree with the closed form on every date.
  lemma DayNumberIsGregorian(c: Civil)
    requires Valid(c)
    ensures DayNumber(c) == GregorianDays(c.year, c.month, c.day)
  {
    MonthTable(c.year, c.month);
    YearStep(c.year);
  }

  // ---- Zero-padded strings and JavaScript string order ----

  function Digit(d: nat): char
    requires d < 10
  {
    (48 + d) as char
  }

  function DigitValue(c: char): int { c as int - 48 }

  predicate IsDigitChar(c: char) { 0 <= DigitValue(c) < 10 }

  // JavaScript compares strings by code unit, left to right.
  predicate LexLess(s: string, t: string) {
    if t == "" then false
    else if s == "" then true
    else if s[0] != t[0] then s[0] < t[0]
    else LexLess(s[1..], t[1..])
  }

  function Two(n: nat): (s: string)
    requires n < 100
    ensures |s| == 2
  {
    [Digit(n / 10), Digit(n % 10)]
  }

  function Four(n: nat): (s: string)
    requires n < 10000
    ensures |s| == 4
  {
    Two(n / 100) + Two(n % 100)
  }

  // Strings of one length compare first part first.
  lemma {:induction false} LexParts(a: string, x: string, b: string, y: string)
    requires |a| == |b|
    ensures LexLess(a + x, b + y) <==> LexLess(a, b) || (a == b && LexLess(x, y))
  {
    if a == "" {
      assert a + x == x && b + y == y;
    } else {
      assert (a + x)[1..] == a[1..] + x && (b + y)[1..] == b[1..] + y;
      LexParts(a[1..], x, b[1..], y);
      assert a == b <==> a[0] == b[0] && a[1..] == b[1..];
    }
  }

  lemma DigitOrder(d: nat, e: nat)
    requires d < 10 && e < 10
    ensures LexLess([Digit(d)], [Digit(e)]) <==> d < e
  {
    assert [Digit(d)][1..] == "" && [Digit(e)][1..] == "";
  }

  lemma TwoOrder(m: nat, n: nat)
    requires m < 100 && n < 100
    ensures LexLess(Two(m), Two(n)) <==> m < n
    ensures Two(m) == Two(n) <==> m == n
  {
    assert Two(m)[1..] == [Digit(m % 10)] && Two(n)[1..] == [Digit(n % 10)];
    assert Two(m)[0] == Two(n)[0] <==> m / 10 == n / 10;
    assert Two(m)[1] == Two(n)[1] <==> m % 10 == n % 10;
    DigitOrder(m % 10, n % 10);
  }

  lemma FourOrder(m: nat, n: nat)
    requires m < 10000 && n < 10000
    ensures LexLess(Four(m), Four(n)) <==> m < n
    ensures Four(m) == Four(n) <==> m == n
  {
    LexParts(Two(m / 100), Two(m % 100), Two(n / 100), Two(n % 100));
    TwoOrder(m / 100, n / 100);
    TwoOrder(m % 100, n % 100);
    if Four(m) == Four(n) {
      assert Two(m / 100) == Four(m)[..2] && Two(n / 100) == Four(n)[..2];
      assert Two(m % 100) == Four(m)[2..] && Two(n % 100) == Four(n)[2..];
    }
  }

  // Years the API's strings can hold: four digits, no leading zero.
  predicate Printable(c: Civil) { Valid(c) && 1000 <= c.year <= 9999 }

  // 1 January of year 1000 and 31 December of year 9999.
  const FIRST_PRINTABLE := 364877
  const LAST_PRINTABLE := 3652058

  // The dates with a four-digit year are the days between these two.
  lemma PrintableDays(c: Civil)
    requires Valid(c)
    ensures Printable(c) <==> FIRST_PRINTABLE <= DayNumber(c) <= LAST_PRINTABLE
  {
    var first, last := Civil(1000, 1, 1), Civil(9999, 12, 31);
    DayInYear(last);
    TwelveMonths(9999);
    assert DayNumber(first) == FIRST_PRINTABLE && DayNumber(last) == LAST_PRINTABLE;
    DatesOrderAsDays(c, first);
    DatesOrderAsDays(last, c);
  }

  function DateText(c: Civil): (s: string)
    requires Printable(c)
    ensures |s| == 10
  {
    Four(c.year) + ("-" + (Two(c.month) + ("-" + Two(c.day))))
  }

  function TimeText(minute: nat): (s: string)
    requires minute < 1440
    ensures |s| == 5
  {
    Two(minute / 60) + (":" + Two(minute % 60))
  }

  // Date strings order as calendar days.
  lemma DateTextOrder(a: Civil, b: Civil)
    requires Printable(a) && Printable(b)
    ensures LexLess(DateText(a), DateText(b)) <==> DayNumber(a) < DayNumber(b)
    ensures DateText(a) == DateText(b) <==> a == b
  {
    var p, q := "-" + Two(a.day), "-" + Two(b.day);
    var u, v := "-" + (Two(a.month) + p), "-" + (Two(b.month) + q);
    LexParts(Four(a.year), u, Four(b.year), v);
    LexParts("-", Two(a.month) + p, "-", Two(b.month) + q);
    LexParts(Two(a.month), p, Two(b.month), q);
    LexParts("-", Two(a.day), "-", Two(b.day));
    FourOrder(a.year, b.year);
    TwoOrder(a.month, b.month);
    TwoOrder(a.day, b.day);
    DashNotLess();
    DatesOrderAsDays(a, b);
    if DateText(a) == DateText(b) { DateTextParts(a, b); }
  }

  lemma DashNotLess()
    ensures !LexLess("-", "-") && !LexLess(":", ":")
  {
    assert "-"[1..] == "" && ":"[1..] == "";
  }

  lemma DateTextParts(a: Civil, b: Civil)
    requires Printable(a) && Printable(b) && DateText(a) == DateText(b)
    ensures a == b
  {
    assert Four(a.year) == DateText(a)[..4] && Four(b.year) == DateText(b)[..4];
    assert Two(a.month) == DateText(a)[5..7] && Two(b.month) == DateText(b)[5..7];
    assert Two(a.day) == DateText(a)[8..] && Two(b.day) == DateText(b)[8..];
    FourOrder(a.year, b.year);
    TwoOrder(a.month, b.month);
    TwoOrder(a.day, b.day);
  }

  lemma TimeTextOrder(m: nat, n: nat)
    requires m < 1440 && n < 1440
    ensures LexLess(TimeText(m), TimeText(n)) <==> m < n
  {
    LexParts(Two(m / 60), ":" + Two(m % 60), Two(n / 60), ":" + Two(n % 60));
    LexParts(":", Two(m % 60), ":", Two(n % 60));
    TwoOrder(m / 60, n / 60);
    TwoOrder(m % 60, n % 60);
    DashNotLess();
  }

  // ---- Reading the strings back ----

  function TwoValue(s: string): int
    requires |s| == 2
  {
    10 * DigitValue(s[0]) + DigitValue(s[1])
  }

  predicate TwoDigits(s: string) { |s| == 2 && IsDigitChar(s[0]) && IsDigitChar(s[1]) }

  lemma TwoRead(s: string)
    requires TwoDigits(s)
    ensures 0 <= TwoValue(s) < 100 && Two(TwoValue(s)) == s
  {
    var n := TwoValue(s);
    assert n / 10 == DigitValue(s[0]) && n % 10 == DigitValue(s[1]);
    assert Two(n)[0] == s[0] && Two(n)[1] == s[1];
  }

  lemma TwoWritten(n: nat)
    requires n < 100
    ensures TwoDigits(Two(n)) && TwoValue(Two(n)) == n
  {
  }

  // YYYY-MM-DD naming a real date of a four-digit year.
  predicate IsDateText(s: string) {
    && |s| == 10 && s[4] == '-' && s[7] == '-'
    && TwoDigits(s[..2]) && TwoDigits(s[2..4]) && TwoDigits(s[5..7]) && TwoDigits(s[8..])
    && Printable(Civil(100 * TwoValue(s[..2]) + TwoValue(s[2..4]), TwoValue(s[5..7]), TwoValue(s[8..])))
  }

  function ReadDate(s: string): (c: Civil)
    requires IsDateText(s)
    ensures Printable(c)
  {
    Civil(100 * TwoValue(s[..2]) + TwoValue(s[2..4]), TwoValue(s[5..7]), TwoValue(s[8..]))
  }

  lemma DateRead(s: string)
    requires IsDateText(s)
    ensures DateText(ReadDate(s)) == s
  {
    TwoRead(s[..2]);
    TwoRead(s[2..4]);
    TwoRead(s[5..7]);
    TwoRead(s[8..]);
    var c := ReadDate(s);
    assert c.year / 100 == TwoValue(s[..2]) && c.year % 100 == TwoValue(s[2..4]);
    assert Four(c.year) == s[..2] + s[2..4];
    assert s == (s[..2] + s[2..4]) + ("-" + (s[5..7] + ("-" + s[8..])));
  }

  lemma DateWritten(c: Civil)
    requires Printable(c)
    ensures IsDateText(DateText(c)) && ReadDate(DateText(c)) == c
  {
    var s := DateText(c);
    assert s[..2] == Two(c.year / 100) && s[2..4] == Two(c.year % 100) && s[5..7] == Two(c.month)
           && s[8..] == Two(c.day);
    TwoWritten(c.year / 100);
    TwoWritten(c.year % 100);
    TwoWritten(c.month);
    TwoWritten(c.day);
  }

  // HH:MM on a 24-hour clock.
  predicate IsTimeText(s: string) {
    && |s| == 5 && s[2] == ':' && TwoDigits(s[..2]) && TwoDigits(s[3..])
    && TwoValue(s[..2]) < 24 && TwoValue(s[3..]) < 60
  }

  function ReadTime(s: string): (m: nat)
    requires IsTimeText(s)
    ensures m < 1440
  {
    60 * TwoValue(s[..2]) + TwoValue(s[3..])
  }

  lemma TimeRead(s: string)
    requires IsTimeText(s)
    ensures TimeText(ReadTime(s)) == s
  {
    TwoRead(s[..2]);
    TwoRead(s[3..]);
    var m := ReadTime(s);
    assert m / 60 == TwoValue(s[..2]) && m % 60 == TwoValue(s[3..]);
    assert s == s[..2] + (":" + s[3..]);
  }

  lemma TimeWritten(m: nat)
    requires m < 1440
    ensures IsTimeText(TimeText(m)) && ReadTime(TimeText(m)) == m
  {
    var s := TimeText(m);
    assert s[..2] == Two(m / 60) && s[3..] == Two(m % 60);
    TwoWritten(m / 60);
    TwoWritten(m % 60);
  }
}
