/** Civil dates and Julian day numbers (`Date.cc`), in the Gregorian calendar carried back to
    the first of March of the year -4800. */
module Calendar {
  import opened Arithmetic

  datatype Date = Date(year: int, month: int, day: int)

  function JulianDayNumber(date: Date): int {
    var a := Quotient(14 - date.month, 12);
    var y := date.year + 4800 - a;
    var m := date.month + 12 * a - 3;
    date.day + Quotient(153 * m + 2, 5) + y * 365 + Quotient(y, 4) - Quotient(y, 100) + Quotient(y, 400) - 32045
  }

  /** The days are divided into centuries, years and months in turn. */
  function YearMonthDay(julianDayNumber: int): Date {
    var a := julianDayNumber + 32044;
    var b := Quotient(4 * a + 3, 146097);
    DateInCentury(b, a - Quotient(b * 146097, 4))
  }

  function DateInCentury(b: int, c: int): Date {
    var d := Quotient(4 * c + 3, 1461);
    DateInYear(b * 100 + d, c - Quotient(1461 * d, 4))
  }

  function DateInYear(y: int, e: int): Date {
    var m := Quotient(5 * e + 2, 153);
    Date(y - 4800 + Quotient(m, 10), m + 3 - 12 * Quotient(m, 10), e - Quotient(153 * m + 2, 5) + 1)
  }

  // ---------------------------------------------------------------------------
  // The calendar itself
  // ---------------------------------------------------------------------------

  predicate IsLeap(year: int) { year % 4 == 0 && (year % 100 != 0 || year % 400 == 0) }

  function DaysIn(year: int, month: int): int {
    if month == 2 then (if IsLeap(year) then 29 else 28)
    else if month == 4 || month == 6 || month == 9 || month == 11 then 30
    else 31
  }

  predicate IsDate(date: Date) { 1 <= date.month <= 12 && 1 <= date.day <= DaysIn(date.year, date.month) }

  /** From the first of March of -4800 on. */
  predicate InRange(date: Date) { date.year > -4800 || (date.year == -4800 && date.month >= 3) }

  function NextDay(date: Date): Date {
    if date.day < DaysIn(date.year, date.month) then date.(day := date.day + 1)
    else if date.month < 12 then Date(date.year, date.month + 1, 1)
    else Date(date.year + 1, 1, 1)
  }

  const FIRST_DAY: int := -32044

  // ---------------------------------------------------------------------------
  // Years from March to March
  // ---------------------------------------------------------------------------

  /** Days before month m, counted from March as 0. */
  function DaysBefore(m: int): int { (153 * m + 2) / 5 }

  /** Year y after -4800, m months and e days into the year that starts in March. */
  datatype MarchDate = MarchDate(y: int, m: int, e: int)

  predicate IsMarchDate(p: MarchDate) {
    && 0 <= p.y && 0 <= p.m <= 11 && DaysBefore(p.m) <= p.e
    && (if p.m == 11 then p.e < (if IsLeap(p.y + 1) then 366 else 365) else p.e < DaysBefore(p.m + 1))
  }

  function ToMarch(date: Date): MarchDate {
    var a := if date.month <= 2 then 1 else 0;
    var m := date.month + 12 * a - 3;
    MarchDate(date.year + 4800 - a, m, DaysBefore(m) + date.day - 1)
  }

  function FromMarch(p: MarchDate): Date {
    var late := if p.m >= 10 then 1 else 0;
    Date(p.y - 4800 + late, p.m + 3 - 12 * late, p.e - DaysBefore(p.m) + 1)
  }

  /** Days before year y: 365 each, and the leap days. */
  function DaysBeforeYear(y: int): int { 365 * y + y / 4 - y / 100 + y / 400 }

  lemma MonthLengths(m: int)
    requires 0 <= m <= 10
    ensures DaysBefore(m + 1) - DaysBefore(m) == (if m == 1 || m == 3 || m == 6 || m == 8 then 30 else 31)
  {
  }

  lemma SameRemainder(year: int, d: int)
    requires d == 4 || d == 100 || d == 400
    ensures (year + 4800) % d == year % d
  {
    if d == 4 { assert year + 4800 == (year / 4 + 1200) * 4 + year % 4; }
    else if d == 100 { assert year + 4800 == (year / 100 + 48) * 100 + year % 100; }
    else { assert year + 4800 == (year / 400 + 12) * 400 + year % 400; }
  }

  lemma LeapShift(year: int)
    ensures IsLeap(year + 4800) == IsLeap(year)
  {
    SameRemainder(year, 4);
    SameRemainder(year, 100);
    SameRemainder(year, 400);
  }

  lemma MarchOfDate(date: Date)
    requires IsDate(date) && InRange(date)
    ensures IsMarchDate(ToMarch(date)) && FromMarch(ToMarch(date)) == date
    ensures JulianDayNumber(date) == DaysBeforeYear(ToMarch(date).y) + ToMarch(date).e + FIRST_DAY
  {
    MarchOfMonth(date);
    NumberThroughMarch(date);
  }

  lemma MarchOfMonth(date: Date)
    requires IsDate(date) && InRange(date)
    ensures IsMarchDate(ToMarch(date)) && FromMarch(ToMarch(date)) == date
  {
    LeapShift(date.year);
    var p := ToMarch(date);
    if p.m <= 10 { MonthLengths(p.m); }
  }

  lemma NumberThroughMarch(date: Date)
    requires 1 <= date.month <= 12 && InRange(date)
    ensures JulianDayNumber(date) == DaysBeforeYear(ToMarch(date).y) + ToMarch(date).e + FIRST_DAY
  {
    assert Quotient(14 - date.month, 12) == if date.month <= 2 then 1 else 0;
  }

  // ---------------------------------------------------------------------------
  // Taking a day number apart
  // ---------------------------------------------------------------------------

  lemma Quarters(b: int, d: int)
    requires 0 <= b && 0 <= d < 100
    ensures (100 * b + d) / 4 == 25 * b + d / 4
  {
  }

  lemma FourHundredths(b: int, d: int)
    requires 0 <= b && 0 <= d < 100
    ensures (100 * b + d) / 400 == b / 4 && (100 * b + d) / 100 == b
  {
    assert 100 * b + d == 400 * (b / 4) + (100 * (b % 4) + d);
  }

  lemma CycleDays(x: int)
    requires x >= 0
    ensures 146097 * x / 4 == 36524 * x + x / 4 && 1461 * x / 4 == 365 * x + x / 4
  {
    assert 146097 * x == 4 * (36524 * x + x / 4) + x % 4 && 1461 * x == 4 * (365 * x + x / 4) + x % 4;
  }

  /** Centuries and the years in them. */
  lemma CenturyParts(b: int, d: int)
    requires 0 <= b && 0 <= d < 100
    ensures var y := 100 * b + d; DaysBeforeYear(y) == 146097 * b / 4 + 1461 * d / 4
  {
    Quarters(b, d);
    FourHundredths(b, d);
    CycleDays(b);
    CycleDays(d);
  }

  /** A leap day ends only the last year of a leap cycle. */
  lemma LeapDayPlace(b: int, d: int)
    requires 0 <= b && 0 <= d < 100 && IsLeap(100 * b + d + 1)
    ensures d % 4 == 3 && (d == 99 ==> b % 4 == 3)
  {
    if d == 99 { assert 100 * b + d + 1 == 100 * (b + 1); HundredfoldLeap(b + 1); }
  }

  lemma HundredfoldLeap(c: int)
    requires c >= 0 && IsLeap(100 * c)
    ensures c % 4 == 0
  {
    assert 100 * c == 400 * (c / 4) + 100 * (c % 4);
  }

  /** The century found is the year's. */
  lemma FindsCentury(b: int, c: int)
    requires 0 <= b && 0 <= c <= 36523 + (if b % 4 == 3 then 1 else 0)
    ensures (4 * (146097 * b / 4 + c) + 3) / 146097 == b
  {
    assert 146097 * b == 4 * (146097 * b / 4) + b % 4 by { assert 146097 * b == 4 * (36524 * b) + b; }
  }

  /** And the year in the century. */
  lemma FindsYear(d: int, e: int)
    requires 0 <= d < 100 && 0 <= e <= 364 + (if d % 4 == 3 then 1 else 0)
    ensures (4 * (1461 * d / 4 + e) + 3) / 1461 == d
  {
    assert 1461 * d == 4 * (1461 * d / 4) + d % 4 by { assert 1461 * d == 4 * (365 * d) + d; }
  }

  /** And the month in the year. */
  lemma FindsMonth(m: int, e: int)
    requires 0 <= m <= 11 && DaysBefore(m) <= e && (if m == 11 then e <= 365 else e < DaysBefore(m + 1))
    ensures (5 * e + 2) / 153 == m
  {
  }

  /** What `YearMonthDay` computes on the way to the date. */
  function Unpacked(a: int): MarchDate
    requires a >= 0
  {
    var b := (4 * a + 3) / 146097;
    var c := a - 146097 * b / 4;
    var d := (4 * c + 3) / 1461;
    var e := c - 1461 * d / 4;
    MarchDate(100 * b + d, (5 * e + 2) / 153, e)
  }

  lemma UnpackedIsComputed(n: int)
    requires n >= FIRST_DAY && IsMarchDate(Unpacked(n - FIRST_DAY))
    ensures YearMonthDay(n) == FromMarch(Unpacked(n - FIRST_DAY))
  {
    var a := n - FIRST_DAY;
    var b := (4 * a + 3) / 146097;
    MultipleBelow(4 * a + 3, 146097);
    var c := a - 146097 * b / 4;
    CenturyComputed(n, a, b, c);
    UnpackedInCentury(a, b, c);
  }

  lemma CenturyComputed(n: int, a: int, b: int, c: int)
    requires n == a + FIRST_DAY && a >= 0 && b == (4 * a + 3) / 146097 && b >= 0 && c == a - 146097 * b / 4
    ensures YearMonthDay(n) == DateInCentury(b, c)
  {
    hide DateInCentury;
    assert n + 32044 == a && Quotient(4 * a + 3, 146097) == b && Quotient(b * 146097, 4) == 146097 * b / 4;
  }

  lemma UnpackedInCentury(a: int, b: int, c: int)
    requires a >= 0 && b == (4 * a + 3) / 146097 && c == a - 146097 * b / 4 && c >= 0
    requires IsMarchDate(Unpacked(a))
    ensures DateInCentury(b, c) == FromMarch(Unpacked(a))
  {
    var d := (4 * c + 3) / 1461;
    MultipleBelow(4 * c + 3, 1461);
    var e := c - 1461 * d / 4;
    assert Unpacked(a) == MarchDate(100 * b + d, (5 * e + 2) / 153, e);
    assert DateInCentury(b, c) == DateInYear(b * 100 + d, e);
    LateMonths(MarchDate(b * 100 + d, (5 * e + 2) / 153, e));
  }

  lemma LateMonths(p: MarchDate)
    requires IsMarchDate(p) && p.m == (5 * p.e + 2) / 153
    ensures DateInYear(p.y, p.e) == FromMarch(p)
  {
    EndOfMonth(p);
  }

  lemma UnpackedFrom(a: int, b: int, c: int, d: int, p: MarchDate)
    requires a >= 0 && (4 * a + 3) / 146097 == b && a == 146097 * b / 4 + c
    requires (4 * c + 3) / 1461 == d && c == 1461 * d / 4 + p.e && (5 * p.e + 2) / 153 == p.m && p.y == 100 * b + d
    ensures Unpacked(a) == p
  {
  }

  lemma CenturyFound(p: MarchDate, b: int, d: int)
    requires IsMarchDate(p) && p.y == 100 * b + d && 0 <= b && 0 <= d < 100
    ensures var a, c := DaysBeforeYear(p.y) + p.e, 1461 * d / 4 + p.e;
            a >= 0 && (4 * a + 3) / 146097 == b && a == 146097 * b / 4 + c
  {
    CenturyParts(b, d);
    DaysLeft(p, b, d);
    FindsCentury(b, 1461 * d / 4 + p.e);
  }

  lemma UnpackedIsIt(p: MarchDate)
    requires IsMarchDate(p)
    ensures Unpacked(DaysBeforeYear(p.y) + p.e) == p
  {
    var b, d := p.y / 100, p.y % 100;
    CenturyFound(p, b, d);
    DaysLeft(p, b, d);
    FindsYear(d, p.e);
    EndOfMonth(p);
    FindsMonth(p.m, p.e);
    UnpackedFrom(DaysBeforeYear(p.y) + p.e, b, 1461 * d / 4 + p.e, d, p);
  }

  lemma DaysLeft(p: MarchDate, b: int, d: int)
    requires IsMarchDate(p) && p.y == 100 * b + d && 0 <= b && 0 <= d < 100
    ensures 0 <= p.e <= 364 + (if d % 4 == 3 then 1 else 0)
    ensures 0 <= 1461 * d / 4 + p.e <= 36523 + (if b % 4 == 3 then 1 else 0)
  {
    if IsLeap(100 * b + d + 1) { LeapDayPlace(b, d); }
    EndOfMonth(p);
    CycleDays(d);
  }

  /** A date comes back from its day number. */
  lemma DateOfItsDay(date: Date)
    requires IsDate(date) && InRange(date)
    ensures YearMonthDay(JulianDayNumber(date)) == date && JulianDayNumber(date) >= FIRST_DAY
  {
    MarchOfDate(date);
    var p := ToMarch(date);
    EndOfMonth(p);
    YearsAreDays(p.y);
    UnpackedIsIt(p);
    UnpackedIsComputed(JulianDayNumber(date));
  }

  lemma YearsAreDays(y: int)
    requires y >= 0
    ensures DaysBeforeYear(y) >= 365 * y
  {
    CenturyParts(y / 100, y % 100);
    CycleDays(y / 100);
    CycleDays(y % 100);
  }

  lemma EndOfMonth(p: MarchDate)
    requires IsMarchDate(p)
    ensures 0 <= p.e <= 364 + (if IsLeap(p.y + 1) then 1 else 0)
  {
  }

  // ---------------------------------------------------------------------------
  // Day after day
  // ---------------------------------------------------------------------------

  lemma YearLength(y: int)
    requires y >= 0
    ensures DaysBeforeYear(y + 1) == DaysBeforeYear(y) + (if IsLeap(y + 1) then 366 else 365)
  {
    NextMultiple(y, 4);
    NextMultiple(y, 100);
    NextMultiple(y, 400);
  }

  lemma NextMultiple(y: int, d: int)
    requires y >= 0 && (d == 4 || d == 100 || d == 400)
    ensures (y + 1) / d == y / d + (if (y + 1) % d == 0 then 1 else 0)
    ensures d == 4 || (y + 1) % d != 0 || (y + 1) % 4 == 0
    ensures d != 400 || (y + 1) % d != 0 || (y + 1) % 100 == 0
  {
  }

  /** The next day, in the year from March to March. */
  lemma NextInMarch(date: Date)
    requires IsDate(date) && InRange(date)
    ensures var p, next := ToMarch(date), ToMarch(NextDay(date));
            if p.m == 11 && date.day == DaysIn(date.year, 2)
            then next == MarchDate(p.y + 1, 0, 0) && p.e == (if IsLeap(p.y + 1) then 365 else 364)
            else next.y == p.y && next.e == p.e + 1
  {
    LeapShift(date.year);
    var p := ToMarch(date);
    if p.m <= 10 { MonthLengths(p.m); }
  }

  /** Consecutive days have consecutive numbers, through every month, year and leap day. */
  lemma NextDayNumber(date: Date)
    requires IsDate(date) && InRange(date)
    ensures IsDate(NextDay(date)) && InRange(NextDay(date))
    ensures JulianDayNumber(NextDay(date)) == JulianDayNumber(date) + 1
  {
    MarchOfDate(date);
    MarchOfDate(NextDay(date));
    NextInMarch(date);
    YearLength(ToMarch(date).y);
  }

  /** Every number from the first day on is the number of a date. */
  lemma {:induction false} DayHasDate(n: int) returns (date: Date)
    requires n >= FIRST_DAY
    ensures IsDate(date) && InRange(date) && JulianDayNumber(date) == n
    decreases n - FIRST_DAY
  {
    if n == FIRST_DAY {
      date := Date(-4800, 3, 1);
    } else {
      var eve := DayHasDate(n - 1);
      NextDayNumber(eve);
      date := NextDay(eve);
    }
  }

  /** The two conversions are inverse bijections between the dates from March 1 of -4800 on and
      the numbers from -32044 on. */
  lemma DayOfItsDate(n: int)
    requires n >= FIRST_DAY
    ensures IsDate(YearMonthDay(n)) && InRange(YearMonthDay(n)) && JulianDayNumber(YearMonthDay(n)) == n
  {
    var date := DayHasDate(n);
    DateOfItsDay(date);
  }

  // ---------------------------------------------------------------------------
  // Int range
  // ---------------------------------------------------------------------------

  const INT_MAX: int := 0x7FFF_FFFF

  predicate FitsInt(x: int) { -INT_MAX - 1 <= x <= INT_MAX }

  /** The largest day number whose conversion stays within 32 bits. */
  const LAST_DAY: int := 536838867

  /** The last year all of whose days have their number computed within 32 bits. */
  const LAST_YEAR: int := 5874688

  /** Everything `getYearMonthDay` computes on the way fits. */
  predicate ConversionFits(n: int) {
    var a := n + 32044;
    var b := Quotient(4 * a + 3, 146097);
    var c := a - Quotient(b * 146097, 4);
    && FitsInt(a) && FitsInt(4 * a) && FitsInt(4 * a + 3) && FitsInt(b * 146097) && FitsInt(b * 100)
    && CenturyFits(b, c)
  }

  predicate CenturyFits(b: int, c: int) {
    var d := Quotient(4 * c + 3, 1461);
    var e := c - Quotient(1461 * d, 4);
    && FitsInt(4 * c) && FitsInt(4 * c + 3) && FitsInt(1461 * d) && FitsInt(b * 100 + d)
    && YearFits(b * 100 + d, e)
  }

  predicate YearFits(y: int, e: int) {
    var m := Quotient(5 * e + 2, 153);
    && FitsInt(5 * e) && FitsInt(5 * e + 2) && FitsInt(153 * m) && FitsInt(153 * m + 2)
    && FitsInt(e - Quotient(153 * m + 2, 5)) && FitsInt(m + 3) && FitsInt(12 * Quotient(m, 10))
    && FitsInt(y - 4800) && FitsInt(y - 4800 + Quotient(m, 10))
  }

  /** Everything `getJulianDayNumber` computes on the way fits. */
  predicate NumberFits(date: Date) {
    var a := Quotient(14 - date.month, 12);
    var y := date.year + 4800 - a;
    var m := date.month + 12 * a - 3;
    var inYear := date.day + Quotient(153 * m + 2, 5);
    && FitsInt(14 - date.month) && FitsInt(date.year + 4800) && FitsInt(y)
    && FitsInt(12 * a) && FitsInt(date.month + 12 * a) && FitsInt(153 * m) && FitsInt(153 * m + 2)
    && FitsInt(inYear) && FitsInt(y * 365) && FitsInt(inYear + y * 365) && FitsInt(inYear + y * 365 + Quotient(y, 4))
    && FitsInt(inYear + y * 365 + Quotient(y, 4) - Quotient(y, 100))
    && FitsInt(JulianDayNumber(date) + 32045) && FitsInt(JulianDayNumber(date))
  }

  /** From the first day on, the conversion to a date overflows nowhere exactly up to LAST_DAY. */
  lemma NoOverflow(n: int)
    requires n >= FIRST_DAY
    ensures ConversionFits(n) <==> n <= LAST_DAY
  {
    if n <= LAST_DAY {
      var a := n + 32044;
      var b := (4 * a + 3) / 146097;
      MultipleBelow(4 * a + 3, 146097);
      var c := a - b * 146097 / 4;
      assert 0 <= c < 36525;
      CenturyStaysInInt(b, c);
    }
  }

  lemma CenturyStaysInInt(b: int, c: int)
    requires 0 <= b <= 20000 && 0 <= c < 36525
    ensures CenturyFits(b, c)
  {
    var d := (4 * c + 3) / 1461;
    MultipleBelow(4 * c + 3, 1461);
    var e := c - 1461 * d / 4;
    assert 0 <= e < 366;
  }

  /** And the conversion to a number overflows on no date up to LAST_YEAR, but does on the last
      date of the year after it. */
  lemma NumberStaysInInt(date: Date)
    requires IsDate(date) && InRange(date)
    ensures date.year <= LAST_YEAR ==> NumberFits(date)
    ensures !NumberFits(Date(LAST_YEAR + 1, 12, 31))
  {
    var a := if date.month <= 2 then 1 else 0;
    assert Quotient(14 - date.month, 12) == a;
    var y := date.year + 4800 - a;
    assert 0 <= y / 400 <= y / 100 <= y / 4;
  }

  lemma MultipleBelow(x: int, k: int)
    requires x >= 0 && (k == 146097 || k == 1461)
    ensures 0 <= x / k * k <= x
  {
  }
}
