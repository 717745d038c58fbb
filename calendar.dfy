/** Python's timezone-aware `datetime.datetime` restricted to what the library
    uses: civil fields in the proleptic Gregorian calendar (years 1..9999,
    as `datetime.MINYEAR`..`MAXYEAR`) plus a fixed UTC offset in minutes,
    moving an instant between offsets (`astimezone`), and the weekday. */
module Calendar {
  import opened Wrappers

  const MinutesPerDay: int := 1440

  datatype Date = Date(year: int, month: int, day: int)

  predicate IsLeap(y: int) {
    y % 4 == 0 && (y % 100 != 0 || y % 400 == 0)
  }

  function DaysInMonth(y: int, m: int): (n: int)
    requires 1 <= m <= 12
    ensures 28 <= n <= 31
  {
    if m == 2 then (if IsLeap(y) then 29 else 28)
    else if m == 4 || m == 6 || m == 9 || m == 11 then 30
    else 31
  }

  predicate ValidDate(d: Date) {
    1 <= d.year <= 9999 && 1 <= d.month <= 12 && 1 <= d.day <= DaysInMonth(d.year, d.month)
  }

  /** The fields of an aware datetime; `offset` is minutes east of UTC and,
      as for `datetime.timezone`, strictly less than one day either way. */
  datatype Civil = Civil(year: int, month: int, day: int,
                         hour: int, minute: int, second: int, microsecond: int,
                         offset: int)
  {
    function DateOf(): Date {
      Date(year, month, day)
    }

    predicate Valid() {
      && ValidDate(DateOf())
      && 0 <= hour < 24 && 0 <= minute < 60 && 0 <= second < 60
      && 0 <= microsecond < 1_000_000
      && -MinutesPerDay < offset < MinutesPerDay
    }
  }

  /** An aware `datetime.datetime`: Python refuses to build one with fields
      out of range, so every value of this type is valid. */
  type DateTime = c: Civil | c.Valid() witness Civil(1, 1, 1, 0, 0, 0, 0, 0)

  // ---------------------------------------------------------------------
  // Stepping one day

  /** The following day, or None after 9999-12-31 (Python's OverflowError). */
  function NextDay(d: Date): (r: Option<Date>)
    requires ValidDate(d)
    ensures r.Some? ==> ValidDate(r.value)
    ensures r.None? <==> d == Date(9999, 12, 31)
  {
    if d.day < DaysInMonth(d.year, d.month) then Some(Date(d.year, d.month, d.day + 1))
    else if d.month < 12 then Some(Date(d.year, d.month + 1, 1))
    else if d.year < 9999 then Some(Date(d.year + 1, 1, 1))
    else None
  }

  /** The preceding day, or None before 0001-01-01. */
  function PrevDay(d: Date): (r: Option<Date>)
    requires ValidDate(d)
    ensures r.Some? ==> ValidDate(r.value)
    ensures r.None? <==> d == Date(1, 1, 1)
  {
    if d.day > 1 then Some(Date(d.year, d.month, d.day - 1))
    else if d.month > 1 then Some(Date(d.year, d.month - 1, DaysInMonth(d.year, d.month - 1)))
    else if d.year > 1 then Some(Date(d.year - 1, 12, 31))
    else None
  }

  /** Stepping forward then back is the identity, and so is back then forward. */
  lemma {:induction false} NextPrevInverse(d: Date)
    requires ValidDate(d)
    ensures NextDay(d).Some? ==> PrevDay(NextDay(d).value) == Some(d)
    ensures PrevDay(d).Some? ==> NextDay(PrevDay(d).value) == Some(d)
  {
  }

  // ---------------------------------------------------------------------
  // Moving an instant between offsets

  /** The same instant written `delta` minutes later on the wall clock, under
      the offset `newOffset`; None when the date leaves years 1..9999. The
      delta is less than a day, so the date moves by at most one day. */
  function Shift(dt: DateTime, delta: int, newOffset: int): (r: Option<DateTime>)
    requires -MinutesPerDay < delta < MinutesPerDay
    requires -MinutesPerDay < newOffset < MinutesPerDay
    ensures r.Some? ==> r.value.offset == newOffset
    ensures r.Some? ==> r.value.second == dt.second && r.value.microsecond == dt.microsecond
  {
    var t := dt.hour * 60 + dt.minute + delta;
    var date :- if t < 0 then PrevDay(dt.DateOf())
                else if t >= MinutesPerDay then NextDay(dt.DateOf())
                else Some(dt.DateOf());
    var t' := if t < 0 then t + MinutesPerDay else if t >= MinutesPerDay then t - MinutesPerDay else t;
    Some(Civil(date.year, date.month, date.day, t' / 60, t' % 60, dt.second, dt.microsecond, newOffset))
  }

  /** Shifting back by the same delta under the original offset restores the
      original fields exactly. */
  lemma {:induction false} ShiftRoundTrip(dt: DateTime, delta: int, newOffset: int)
    requires -MinutesPerDay < delta < MinutesPerDay
    requires -MinutesPerDay < newOffset < MinutesPerDay
    requires Shift(dt, delta, newOffset).Some?
    ensures Shift(Shift(dt, delta, newOffset).value, -delta, dt.offset) == Some(dt)
  {
    var d := dt.DateOf();
    var x := dt.hour * 60 + dt.minute;
    var t := x + delta;
    var e := Shift(dt, delta, newOffset).value;
    var t' := if t < 0 then t + MinutesPerDay else if t >= MinutesPerDay then t - MinutesPerDay else t;
    assert 0 <= t' < MinutesPerDay;
    ClockSplit(t');
    assert e.hour * 60 + e.minute == t';
    ClockJoin(dt.hour, dt.minute);
    if t < 0 {
      assert e.DateOf() == PrevDay(d).value;
      NextPrevInverse(d);
      assert NextDay(e.DateOf()) == Some(d);
    } else if t >= MinutesPerDay {
      assert e.DateOf() == NextDay(d).value;
      NextPrevInverse(d);
      assert PrevDay(e.DateOf()) == Some(d);
    } else {
      assert e.DateOf() == d;
    }
  }

  /** A minute of the day is its hour and minute. */
  lemma {:induction false} ClockSplit(t: int)
    requires 0 <= t < MinutesPerDay
    ensures 0 <= t / 60 < 24 && (t / 60) * 60 + t % 60 == t
  {
  }

  lemma {:induction false} ClockJoin(hour: int, minute: int)
    requires 0 <= minute < 60
    ensures (hour * 60 + minute) / 60 == hour && (hour * 60 + minute) % 60 == minute
  {
  }

  /** `dt.astimezone(timezone.utc)`: the same instant at offset zero, or None
      (OverflowError) when that falls outside years 1..9999. */
  function ToUtc(dt: DateTime): (r: Option<DateTime>)
    ensures r.Some? ==> r.value.offset == 0
    ensures dt.offset == 0 ==> r == Some(dt)
  {
    Shift(dt, -dt.offset, 0)
  }

  /** `u.astimezone(timezone(timedelta(minutes=offset)))` for a UTC datetime `u`. */
  function AtOffset(u: DateTime, offset: int): (r: Option<DateTime>)
    requires u.offset == 0
    requires -MinutesPerDay < offset < MinutesPerDay
    ensures r.Some? ==> r.value.offset == offset
  {
    Shift(u, offset, offset)
  }

  /** Converting a UTC instant to any offset and back to UTC gives it back:
      the UTC form depends on the instant only, not on the offset it was
      written in. */
  lemma {:induction false} ToUtcAtOffset(u: DateTime, offset: int)
    requires u.offset == 0
    requires -MinutesPerDay < offset < MinutesPerDay
    requires AtOffset(u, offset).Some?
    ensures ToUtc(AtOffset(u, offset).value) == Some(u)
  {
    ShiftRoundTrip(u, offset, offset);
  }

  // ---------------------------------------------------------------------
  // Day numbers and weekdays

  function DaysBeforeYear(y: int): int
    requires y >= 1
  {
    var p := y - 1;
    365 * p + p / 4 - p / 100 + p / 400
  }

  function DaysBeforeMonth(y: int, m: int): int
    requires 1 <= m <= 12
  {
    var table := [0, 31, 59, 90, 120, 151, 181, 212, 243, 273, 304, 334];
    table[m - 1] + (if m > 2 && IsLeap(y) then 1 else 0)
  }

  /** `date.toordinal()`: 0001-01-01 is day 1. */
  function Ordinal(d: Date): int
    requires ValidDate(d)
  {
    DaysBeforeYear(d.year) + DaysBeforeMonth(d.year, d.month) + d.day
  }

  lemma {:induction false} QuarterStep(y: int)
    ensures y / 4 - (y - 1) / 4 == if y % 4 == 0 then 1 else 0
  {
  }

  lemma {:induction false} CenturyStep(y: int)
    ensures y / 100 - (y - 1) / 100 == if y % 100 == 0 then 1 else 0
  {
  }

  lemma {:induction false} QuadricentennialStep(y: int)
    ensures y / 400 - (y - 1) / 400 == if y % 400 == 0 then 1 else 0
  {
  }

  lemma {:induction false} YearLength(y: int)
    requires y >= 1
    ensures DaysBeforeYear(y + 1) == DaysBeforeYear(y) + (if IsLeap(y) then 366 else 365)
  {
    var p := y - 1;
    assert DaysBeforeYear(y + 1) - DaysBeforeYear(y) == 365 + (y / 4 - p / 4) - (y / 100 - p / 100) + (y / 400 - p / 400);
    QuarterStep(y);
    CenturyStep(y);
    QuadricentennialStep(y);
    DivisorChain(y);
  }

  /** Adding a multiple of `n` leaves the remainder modulo `n` unchanged. */
  lemma {:induction false} ModOfMultiplePlus(n: int, k: int, r: int)
    requires n > 0
    ensures (n * k + r) % n == r % n
  {
    var a := n * k + r;
    var d := a / n - r / n - k;
    assert a == n * (a / n) + a % n;
    assert r == n * (r / n) + r % n;
    assert n * d == r % n - a % n;
    MulBounds(n, d);
  }

  lemma {:induction false} MulBounds(n: int, d: int)
    requires n > 0
    ensures d > 0 ==> n * d >= n
    ensures d < 0 ==> n * d <= -n
  {
  }

  /** A multiple of 400 is a multiple of 100, which is a multiple of 4. */
  lemma {:induction false} DivisorChain(y: int)
    ensures y % 100 == 0 ==> y % 4 == 0
    ensures y % 400 == 0 ==> y % 100 == 0
  {
    var q := y / 100;
    var r := y % 100;
    assert y == 100 * q + r && 0 <= r < 100;
    assert y == 4 * (25 * q) + r;
    ModOfMultiplePlus(4, 25 * q, r);
    var q4 := y / 400;
    var r4 := y % 400;
    assert y == 400 * q4 + r4 && 0 <= r4 < 400;
    assert y == 100 * (4 * q4) + r4;
    ModOfMultiplePlus(100, 4 * q4, r4);
  }

  /** Consecutive days have consecutive ordinals. */
  lemma {:induction false} NextDayOrdinal(d: Date)
    requires ValidDate(d) && NextDay(d).Some?
    ensures Ordinal(NextDay(d).value) == Ordinal(d) + 1
  {
    if d.day == DaysInMonth(d.year, d.month) && d.month == 12 {
      YearLength(d.year);
    }
  }

  /** `date.weekday()`: Monday is 0, Sunday is 6. */
  function Weekday(d: Date): (w: int)
    requires ValidDate(d)
    ensures 0 <= w < 7
  {
    (Ordinal(d) + 6) % 7
  }

  /** Each day's weekday follows the previous day's. */
  lemma {:induction false} NextDayWeekday(d: Date)
    requires ValidDate(d) && NextDay(d).Some?
    ensures Weekday(NextDay(d).value) == (Weekday(d) + 1) % 7
  {
    NextDayOrdinal(d);
    WeekStep(Ordinal(d) + 6);
  }

  lemma {:induction false} WeekStep(n: int)
    ensures (n + 1) % 7 == (n % 7 + 1) % 7
  {
  }
}
