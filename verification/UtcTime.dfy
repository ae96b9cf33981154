/** Seconds since the epoch and broken-down UTC time (`TimeZone::toUtcTime`, `fromUtcTime`). */
module UtcTime {
  import opened Arithmetic
  import opened Calendar

  const SECONDS_PER_DAY: int := 86400

  /** `Date::kJulianDayOf1970_01_01`. */
  const EPOCH_DAY: int := 2440588

  /** `struct tm`: years from 1900, months from 0, days from 1. */
  datatype Tm = Tm(year: int, mon: int, mday: int, hour: int, min: int, sec: int, wday: int, yday: int)

  function DateOf(utc: Tm): Date { Date(utc.year + 1900, utc.mon + 1, utc.mday) }

  function FromUtcTime(utc: Tm): int {
    var secondsInDay := utc.hour * 3600 + utc.min * 60 + utc.sec;
    (JulianDayNumber(DateOf(utc)) - EPOCH_DAY) * SECONDS_PER_DAY + secondsInDay
  }

  function WeekDay(n: int): int { Remainder(n + 1, 7) }

  /** Which day, by the calendar, and how far into it. */
  function DayOf(seconds: int): int { EPOCH_DAY + seconds / SECONDS_PER_DAY }

  predicate IsConvertible(seconds: int) { FIRST_DAY <= DayOf(seconds) <= LAST_DAY }

  /** The day is the one the seconds fall on, also before the epoch, and the clock shows the
      rest. */
  predicate Shows(utc: Tm, seconds: int, yday: bool) {
    var date := YearMonthDay(DayOf(seconds));
    && DateOf(utc) == date
    && 0 <= utc.hour < 24 && 0 <= utc.min < 60 && 0 <= utc.sec < 60
    && utc.hour * 3600 + utc.min * 60 + utc.sec == seconds % SECONDS_PER_DAY
    && utc.wday == WeekDay(DayOf(seconds))
    && utc.yday == if yday then DayOf(seconds) - JulianDayNumber(Date(date.year, 1, 1)) else 0
  }

  // ---------------------------------------------------------------------------
  // Day of the week and of the year
  // ---------------------------------------------------------------------------

  /** The week day is one of the seven exactly from the day before day 0 on, and on every
      seventh day before that, because C's remainder takes the sign of the dividend. */
  lemma WeekDayInRange(n: int)
    ensures 0 <= WeekDay(n) <= 6 <==> n >= -1 || (n + 1) % 7 == 0
  {
    if n < -1 {
      var k := -(n + 1);
      assert k == (k / 7) * 7 + k % 7;
      assert WeekDay(n) == -(k % 7);
      assert (n + 1) % 7 == 0 <==> k % 7 == 0 by {
        if k % 7 == 0 { assert n + 1 == (-(k / 7)) * 7; } else { assert n + 1 == (-(k / 7) - 1) * 7 + (7 - k % 7); }
      }
    }
  }

  /** Week days go round: the next day's is the next one. */
  lemma WeekDaysGoRound(n: int)
    requires n >= -1
    ensures WeekDay(n + 1) == (WeekDay(n) + 1) % 7
  {
  }

  /** A day n's week day counts on from the epoch's Thursday. Before day -1 the same week day is
      given by a number from -6 to 0. */
  predicate IsWeekDayOf(wday: int, n: int) {
    && (wday - 4 - (n - EPOCH_DAY)) % 7 == 0
    && if n >= -1 then 0 <= wday <= 6 else -6 <= wday <= 0
  }

  lemma CountsFromThursday(n: int)
    ensures forall wday: int :: IsWeekDayOf(wday, n) <==> wday == WeekDay(n)
  {
    assert n + 1 == 7 * Quotient(n + 1, 7) + WeekDay(n);
    forall wday: int ensures IsWeekDayOf(wday, n) <==> wday == WeekDay(n) {
    }
  }

  function DaysBeforeMonth(year: int, month: int): int
    decreases month
  {
    if month <= 1 then 0 else DaysBeforeMonth(year, month - 1) + DaysIn(year, month - 1)
  }

  lemma DaysCount(year: int, month: int, day: int)
    ensures JulianDayNumber(Date(year, month, day)) == JulianDayNumber(Date(year, month, 1)) + day - 1
  {
  }

  lemma MonthAfter(year: int, month: int)
    requires (year > -4800 && 1 <= month < 12) || (year == -4800 && 3 <= month < 12)
    ensures JulianDayNumber(Date(year, month + 1, 1)) == JulianDayNumber(Date(year, month, 1)) + DaysIn(year, month)
  {
    var last := Date(year, month, DaysIn(year, month));
    DaysCount(year, month, last.day);
    NextDayNumber(last);
  }

  lemma {:induction false} MonthStart(year: int, month: int)
    requires (year > -4800 && 1 <= month <= 12) || (year == -4800 && 3 <= month <= 12)
    ensures JulianDayNumber(Date(year, month, 1)) ==
            JulianDayNumber(Date(year, 1, 1)) + DaysBeforeMonth(year, month) - (if year == -4800 then 1 else 0)
    decreases month
  {
    if month == 1 {
    } else if year == -4800 && month == 3 {
      assert DaysBeforeMonth(-4800, 2) == 31 && DaysBeforeMonth(-4800, 3) == 60;
      assert JulianDayNumber(Date(-4800, 1, 1)) == -32103 && JulianDayNumber(Date(-4800, 3, 1)) == FIRST_DAY;
    } else {
      MonthStart(year, month - 1);
      MonthAfter(year, month - 1);
    }
  }

  /** The days of the year before a date; in the year -4800, whose January and February the
      day numbers do not count right, one less. */
  function DayOfYear(date: Date): int {
    DaysBeforeMonth(date.year, date.month) + date.day - 1 - (if date.year == -4800 then 1 else 0)
  }

  /** `tm_yday`, taken from day numbers, is the count of the days of the year before. */
  lemma YearDay(date: Date)
    requires IsDate(date) && InRange(date)
    ensures JulianDayNumber(date) - JulianDayNumber(Date(date.year, 1, 1)) == DayOfYear(date)
  {
    MonthStart(date.year, date.month);
    DaysCount(date.year, date.month, date.day);
  }

  // ---------------------------------------------------------------------------
  // Breaking down and putting together
  // ---------------------------------------------------------------------------

  method FillHMS(seconds: nat) returns (hour: nat, min: nat, sec: nat)
    ensures hour * 3600 + min * 60 + sec == seconds && min < 60 && sec < 60
    ensures seconds < 86400 ==> hour < 24
  {
    sec := seconds % 60;
    var minutes := seconds / 60;
    min := minutes % 60;
    hour := minutes / 60;
  }

  /** C's remainder and quotient by the day, put right when negative, are the floored ones. */
  lemma FlooredDay(s: int)
    ensures var r, q := Remainder(s, 86400), Quotient(s, 86400);
            if r < 0 then r + 86400 == s % 86400 && q - 1 == s / 86400 else r == s % 86400 && q == s / 86400
  {
    if s < 0 {
      var p := -s;
      assert p == (p / 86400) * 86400 + p % 86400;
      if p % 86400 == 0 {
        assert s == (-(p / 86400)) * 86400;
      } else {
        assert s == (-(p / 86400) - 1) * 86400 + (86400 - p % 86400);
      }
    }
  }

  method ToUtcTime(secondsSinceEpoch: int, yday: bool) returns (utc: Tm)
    requires IsConvertible(secondsSinceEpoch)
    ensures Shows(utc, secondsSinceEpoch, yday)
  {
    var seconds := Remainder(secondsSinceEpoch, 86400);
    var days := Quotient(secondsSinceEpoch, 86400);
    FlooredDay(secondsSinceEpoch);
    if seconds < 0 {
      seconds := seconds + SECONDS_PER_DAY;
      days := days - 1;
    }
    assert days + EPOCH_DAY == DayOf(secondsSinceEpoch) && seconds == secondsSinceEpoch % SECONDS_PER_DAY;
    var hour, min, sec := FillHMS(seconds);
    utc := FillDate(days + EPOCH_DAY, yday);
    FieldsShown(utc, secondsSinceEpoch, yday, hour, min, sec);
    utc := utc.(hour := hour, min := min, sec := sec);
  }

  /** The fields of a day number say: the date that has this number; the day of the week, by
      counting on from the epoch's Thursday; and, when asked for, the days of the year before
      the date. */
  method FillDate(n: int, yday: bool) returns (utc: Tm)
    ensures n >= FIRST_DAY ==> IsDate(DateOf(utc)) && InRange(DateOf(utc)) && JulianDayNumber(DateOf(utc)) == n
    ensures IsWeekDayOf(utc.wday, n)
    ensures n >= FIRST_DAY && yday ==> utc.yday == DayOfYear(DateOf(utc))
    ensures !yday ==> utc.yday == 0
  {
    var date := YearMonthDay(n);
    utc := Tm(date.year - 1900, date.month - 1, date.day, 0, 0, 0, WeekDay(n), 0);
    if yday {
      utc := utc.(yday := n - JulianDayNumber(Date(date.year, 1, 1)));
    }
    CountsFromThursday(n);
    DateOfDay(n, date);
    assert DateOf(utc) == date;
  }

  lemma DateOfDay(n: int, date: Date)
    requires date == YearMonthDay(n)
    ensures n >= FIRST_DAY ==> IsDate(date) && InRange(date) && JulianDayNumber(date) == n
    ensures n >= FIRST_DAY ==> n - JulianDayNumber(Date(date.year, 1, 1)) == DayOfYear(date)
  {
    if n >= FIRST_DAY {
      DayOfItsDate(n);
      YearDay(date);
    }
  }

  /** And with that they are the fields `Shows` asks for. */
  lemma FieldsOfDay(utc: Tm, n: int)
    requires n >= FIRST_DAY
    requires IsDate(DateOf(utc)) && InRange(DateOf(utc)) && JulianDayNumber(DateOf(utc)) == n && IsWeekDayOf(utc.wday, n)
    ensures DateOf(utc) == YearMonthDay(n) && utc.wday == WeekDay(n)
    ensures DayOfYear(DateOf(utc)) == n - JulianDayNumber(Date(YearMonthDay(n).year, 1, 1))
  {
    DateOfItsDay(DateOf(utc));
    CountsFromThursday(n);
    YearDay(DateOf(utc));
  }

  lemma FieldsShown(utc: Tm, seconds: int, yday: bool, hour: int, min: int, sec: int)
    requires var date := DateOf(utc); IsConvertible(seconds) && IsDate(date) && InRange(date) && JulianDayNumber(date) == DayOf(seconds)
    requires IsWeekDayOf(utc.wday, DayOf(seconds)) && utc.yday == if yday then DayOfYear(DateOf(utc)) else 0
    requires 0 <= hour < 24 && 0 <= min < 60 && 0 <= sec < 60 && hour * 3600 + min * 60 + sec == seconds % SECONDS_PER_DAY
    ensures Shows(utc.(hour := hour, min := min, sec := sec), seconds, yday)
  {
    FieldsOfDay(utc, DayOf(seconds));
    assert DateOf(utc.(hour := hour, min := min, sec := sec)) == DateOf(utc);
  }

  lemma EpochDay()
    ensures JulianDayNumber(Date(1970, 1, 1)) == EPOCH_DAY && WeekDay(EPOCH_DAY) == 4
  {
  }

  /** Broken down and put together again, any number of seconds is itself, before the epoch
      as after it. */
  lemma SecondsComeBack(utc: Tm, seconds: int, yday: bool)
    requires IsConvertible(seconds) && Shows(utc, seconds, yday)
    ensures FromUtcTime(utc) == seconds && IsDate(DateOf(utc)) && InRange(DateOf(utc))
  {
    DayOfItsDate(DayOf(seconds));
  }

  lemma SameClock(h: int, m: int, s: int, h': int, m': int, s': int)
    requires 0 <= m < 60 && 0 <= s < 60 && 0 <= m' < 60 && 0 <= s' < 60
    requires h * 3600 + m * 60 + s == h' * 3600 + m' * 60 + s'
    ensures h == h' && m == m' && s == s'
  {
  }

  function Clock(utc: Tm): int { utc.hour * 3600 + utc.min * 60 + utc.sec }

  predicate OnTheClock(utc: Tm) { 0 <= utc.hour < 24 && 0 <= utc.min < 60 && 0 <= utc.sec < 60 }

  /** And a broken-down time comes back in all its fields. */
  lemma FieldsComeBack(utc: Tm, back: Tm, yday: bool)
    requires IsDate(DateOf(utc)) && InRange(DateOf(utc)) && OnTheClock(utc)
    requires Shows(back, FromUtcTime(utc), yday)
    ensures back == utc.(wday := back.wday, yday := back.yday)
  {
    DateOfItsDay(DateOf(utc));
    DayComesBack(utc);
    SameFields(utc, back, FromUtcTime(utc));
  }

  lemma DayComesBack(utc: Tm)
    requires OnTheClock(utc)
    ensures DayOf(FromUtcTime(utc)) == JulianDayNumber(DateOf(utc))
    ensures FromUtcTime(utc) % 86400 == Clock(utc)
  {
    DayAndClock(JulianDayNumber(DateOf(utc)) - EPOCH_DAY, Clock(utc));
  }

  lemma SameFields(utc: Tm, back: Tm, seconds: int)
    requires OnTheClock(utc) && OnTheClock(back) && DateOf(back) == DateOf(utc)
    requires Clock(back) == seconds % 86400 == Clock(utc)
    ensures back == utc.(wday := back.wday, yday := back.yday)
  {
    SameClock(utc.hour, utc.min, utc.sec, back.hour, back.min, back.sec);
  }

  lemma DayAndClock(day: int, clock: int)
    requires 0 <= clock < 86400
    ensures (day * 86400 + clock) / 86400 == day && (day * 86400 + clock) % 86400 == clock
  {
  }
}
