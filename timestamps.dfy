/** The two `datetime.strptime` patterns the library parses timestamps with,
    `%Y-%m-%d %H:%M:%S%z` and `%Y-%m-%d %H:%M:%S.%f%z`, and the RFC 3339
    text the Haiku API writes timestamps in. */
module Timestamps {
  import opened Wrappers
  import opened Text
  import opened Calendar
  import opened Exceptions

  // ---------------------------------------------------------------------
  // strptime

  /** The number the `w` characters of `t` from index `i` spell, when they
      are all decimal digits. */
  function DigitsAt(t: string, i: nat, w: nat): Option<nat> {
    if i + w <= |t| && AllDigits(t[i..i + w]) then Some(DigitsValue(t[i..i + w])) else None
  }

  /** `%f`: one to six digits, padded on the right with zeros to six. */
  function Microseconds(frac: string): (us: nat)
    requires |frac| <= 6 && AllDigits(frac)
    ensures us < 1_000_000
  {
    var six := frac + Zeros(6 - |frac|);
    assert AllDigits(six);
    SixDigitsBound(six);
    DigitsValue(six)
  }

  lemma {:induction false} SixDigitsBound(s: string)
    requires AllDigits(s)
    ensures DigitsValue(s) < Pow10(|s|)
    decreases |s|
  {
    if s != [] {
      SixDigitsBound(s[..|s| - 1]);
    }
  }

  /** Where `%z` starts: after the 19 characters of `%Y-%m-%d %H:%M:%S`
      and, with a fraction, after the point and its digits. */
  function ZoneStart(fracLen: nat): nat {
    if fracLen == 0 then 19 else 20 + fracLen
  }

  /** The separators of the pattern sit where the fixed-width fields put them. */
  predicate Punctuated(t: string, fracLen: nat)
    requires |t| == ZoneStart(fracLen) + 5
  {
    && t[4] == '-' && t[7] == '-' && t[10] == ' ' && t[13] == ':' && t[16] == ':'
    && (fracLen > 0 ==> t[19] == '.')
    && (t[ZoneStart(fracLen)] == '+' || t[ZoneStart(fracLen)] == '-')
  }

  /** The fields the pattern's regular expression captures, or None when the
      text does not match it: `fracLen` is 0 for the pattern without `%f`
      and the number of fraction digits otherwise. `%z` is `+HHMM` or
      `-HHMM` with minutes below 60. */
  function Captured(t: string, fracLen: nat): Option<Civil>
    requires fracLen <= 6
  {
    var z := ZoneStart(fracLen);
    if |t| != z + 5 || !Punctuated(t, fracLen) then None
    else
      var year :- DigitsAt(t, 0, 4);
      var month :- DigitsAt(t, 5, 2);
      var day :- DigitsAt(t, 8, 2);
      var hour :- DigitsAt(t, 11, 2);
      var minute :- DigitsAt(t, 14, 2);
      var second :- DigitsAt(t, 17, 2);
      var frac := t[20..20 + fracLen];
      var us :- if fracLen == 0 then Some(0)
                else if AllDigits(frac) then Some(Microseconds(frac))
                else None;
      var oh :- DigitsAt(t, z + 1, 2);
      var om :- DigitsAt(t, z + 3, 2);
      if om >= 60 then None
      else
        var offset := if t[z] == '-' then -(oh * 60 + om) else oh * 60 + om;
        Some(Civil(year, month, day, hour, minute, second, us, offset))
  }

  /** `datetime.strptime(t, pattern)`: ValueError when the text does not
      match, and also when the captured fields do not make a datetime
      (a day past the month's end, second 60, year 0, an offset of a day
      or more). */
  function Strptime(t: string, fracLen: nat): (r: Result<DateTime, Exception>)
    requires fracLen <= 6
    ensures r.Success? <==> Captured(t, fracLen).Some? && Captured(t, fracLen).value.Valid()
    ensures r.Success? ==> r.value == Captured(t, fracLen).value
    ensures r.Failure? ==> r.error == Builtin(ValueError, t)
  {
    match Captured(t, fracLen)
    case Some(c) => if c.Valid() then Success(c) else Failure(Builtin(ValueError, t))
    case None => Failure(Builtin(ValueError, t))
  }

  /** `datetime.strptime(t, '%Y-%m-%d %H:%M:%S%z')`. */
  function StrptimeWhole(t: string): Result<DateTime, Exception> {
    Strptime(t, 0)
  }

  /** `datetime.strptime(t, '%Y-%m-%d %H:%M:%S.%f%z')`: the fraction runs
      from the point to the sign of the offset, so its length is fixed by
      the length of the text. */
  function StrptimeFraction(t: string): (r: Result<DateTime, Exception>)
    ensures r.Success? ==> 26 <= |t| <= 31
  {
    if 26 <= |t| <= 31 then Strptime(t, |t| - 25) else Failure(Builtin(ValueError, t))
  }

  // ---------------------------------------------------------------------
  // Writing a datetime as text

  function Abs(i: int): nat {
    if i < 0 then -i else i
  }

  function SignChar(offset: int): char {
    if offset < 0 then '-' else '+'
  }

  /** `YYYY-MM-DD`. */
  function DateText(dt: DateTime): (s: string)
    ensures |s| == 10
  {
    NatDigitsLength(dt.year, 4, 10000);
    NatDigitsLength(dt.month, 2, 100);
    NatDigitsLength(dt.day, 2, 100);
    Padded(dt.year, 4) + "-" + Padded(dt.month, 2) + "-" + Padded(dt.day, 2)
  }

  /** `HH:MM:SS`. */
  function ClockText(dt: DateTime): (s: string)
    ensures |s| == 8
  {
    NatDigitsLength(dt.hour, 2, 100);
    NatDigitsLength(dt.minute, 2, 100);
    NatDigitsLength(dt.second, 2, 100);
    Padded(dt.hour, 2) + ":" + Padded(dt.minute, 2) + ":" + Padded(dt.second, 2)
  }

  /** The hours and the minutes of an offset, two digits each. */
  function OffsetHours(offset: int): (s: string)
    requires -MinutesPerDay < offset < MinutesPerDay
    ensures |s| == 2 && AllDigits(s) && DigitsValue(s) == Abs(offset) / 60
  {
    NatDigitsLength(Abs(offset) / 60, 2, 100);
    Padded(Abs(offset) / 60, 2)
  }

  function OffsetMinutes(offset: int): (s: string)
    ensures |s| == 2 && AllDigits(s) && DigitsValue(s) == Abs(offset) % 60
  {
    NatDigitsLength(Abs(offset) % 60, 2, 100);
    Padded(Abs(offset) % 60, 2)
  }

  /** The fraction digits `frac` of a text stand for `us` microseconds:
      none for zero, or one to six digits that `%f` reads as `us`. */
  predicate FractionOf(frac: string, us: int) {
    || (frac == [] && us == 0)
    || (1 <= |frac| <= 6 && AllDigits(frac) && Microseconds(frac) == us)
  }

  function FractionText(frac: string): string {
    if frac == [] then [] else "." + frac
  }

  /** The text the strptime patterns read for `dt`, written with the
      fraction digits `frac`: `YYYY-MM-DD HH:MM:SS[.f]+HHMM`. */
  function StampText(dt: DateTime, frac: string): (s: string)
    requires FractionOf(frac, dt.microsecond)
    ensures |s| == ZoneStart(|frac|) + 5
  {
    DateText(dt) + " " + (ClockText(dt) + FractionText(frac))
      + [SignChar(dt.offset)] + OffsetHours(dt.offset) + OffsetMinutes(dt.offset)
  }

  /** RFC 3339 as the Haiku API writes it: `YYYY-MM-DDTHH:MM:SS`, the
      fraction digits `frac` after a point when there are any, then `Z`
      for UTC or `+HH:MM` / `-HH:MM`. */
  function Rfc3339(dt: DateTime, frac: string): string
    requires FractionOf(frac, dt.microsecond)
  {
    DateText(dt) + "T" + (ClockText(dt) + FractionText(frac)) + ZoneText(dt.offset)
  }

  function ZoneText(offset: int): string
    requires -MinutesPerDay < offset < MinutesPerDay
  {
    if offset == 0 then "Z" else ColonZone(offset)
  }

  /** `+HH:MM` / `-HH:MM`. */
  function ColonZone(offset: int): (s: string)
    requires -MinutesPerDay < offset < MinutesPerDay
    ensures |s| == 6
  {
    [SignChar(offset)] + OffsetHours(offset) + ":" + OffsetMinutes(offset)
  }

  // ---------------------------------------------------------------------
  // Reading back what was written

  /** A slice inside a known prefix is the slice of that prefix. */
  lemma {:induction false} InPrefix(t: string, p: string, i: nat, j: nat)
    requires |p| <= |t| && t[..|p|] == p && i <= j <= |p|
    ensures t[i..j] == p[i..j]
  {
    assert forall k :: i <= k < j ==> t[k] == t[..|p|][k];
  }

  /** The widths of the padded fields of a datetime. */
  lemma {:induction false} PaddedWidths(dt: DateTime)
    ensures |Padded(dt.year, 4)| == 4 && |Padded(dt.month, 2)| == 2 && |Padded(dt.day, 2)| == 2
    ensures |Padded(dt.hour, 2)| == 2 && |Padded(dt.minute, 2)| == 2 && |Padded(dt.second, 2)| == 2
  {
    NatDigitsLength(dt.year, 4, 10000);
    NatDigitsLength(dt.month, 2, 100);
    NatDigitsLength(dt.day, 2, 100);
    NatDigitsLength(dt.hour, 2, 100);
    NatDigitsLength(dt.minute, 2, 100);
    NatDigitsLength(dt.second, 2, 100);
  }

  /** Where the three fields of `a-b-c` (or `a:b:c`) sit. */
  lemma {:induction false} TripleSlices(a: string, sep: string, b: string, c: string, w: nat)
    requires |sep| == 1 && |b| == 2 && |c| == 2 && |a| == w
    ensures var x := a + sep + b + sep + c;
      |x| == w + 6 && x[..w] == a && x[w] == sep[0] && x[w + 1..w + 3] == b && x[w + 3] == sep[0] && x[w + 4..] == c
  {
  }

  /** Where the parts of `d + " " + (c + f) + [sign] + hh + mm` sit. */
  lemma {:induction false} StampSlices(d: string, c: string, f: string, sign: char, hh: string, mm: string)
    requires |d| == 10 && |c| == 8
    ensures var t := d + " " + (c + f) + [sign] + hh + mm;
      |t| >= 19 + |f| && t[..10] == d && t[10] == ' ' && t[11..19] == c && t[19..19 + |f|] == f
  {
    var t := d + " " + (c + f) + [sign] + hh + mm;
    var head := d + " " + (c + f);
    assert t[..|head|] == head;
    assert head[11..19] == c;
    InPrefix(t, head, 11, 19);
    assert head[19..] == f;
    InPrefix(t, head, 19, 19 + |f|);
  }

  /** The date fields of a stamp text sit where the pattern reads them. */
  lemma {:induction false} StampDateFields(dt: DateTime, frac: string)
    requires FractionOf(frac, dt.microsecond)
    ensures DigitsAt(StampText(dt, frac), 0, 4) == Some(dt.year)
    ensures DigitsAt(StampText(dt, frac), 5, 2) == Some(dt.month)
    ensures DigitsAt(StampText(dt, frac), 8, 2) == Some(dt.day)
    ensures StampText(dt, frac)[4] == '-' && StampText(dt, frac)[7] == '-'
  {
    var d := DateText(dt);
    PaddedWidths(dt);
    StampSlices(d, ClockText(dt), FractionText(frac), SignChar(dt.offset), OffsetHours(dt.offset), OffsetMinutes(dt.offset));
    DateAt(StampText(dt, frac), d, Padded(dt.year, 4), Padded(dt.month, 2), Padded(dt.day, 2));
  }

  /** A date `y-m-d` at the start of `t`. */
  lemma {:induction false} DateAt(t: string, d: string, y: string, m: string, dd: string)
    requires |y| == 4 && |m| == 2 && |dd| == 2 && d == y + "-" + m + "-" + dd
    requires AllDigits(y) && AllDigits(m) && AllDigits(dd)
    requires |t| >= 10 && t[..10] == d
    ensures DigitsAt(t, 0, 4) == Some(DigitsValue(y))
    ensures DigitsAt(t, 5, 2) == Some(DigitsValue(m))
    ensures DigitsAt(t, 8, 2) == Some(DigitsValue(dd))
    ensures t[4] == '-' && t[7] == '-'
  {
    TripleSlices(y, "-", m, dd, 4);
    InPrefix(t, d, 0, 4);
    InPrefix(t, d, 5, 7);
    InPrefix(t, d, 8, 10);
    assert t[4] == t[..10][4];
    assert t[7] == t[..10][7];
  }

  /** So do the clock fields. */
  lemma {:induction false} StampClockFields(dt: DateTime, frac: string)
    requires FractionOf(frac, dt.microsecond)
    ensures DigitsAt(StampText(dt, frac), 11, 2) == Some(dt.hour)
    ensures DigitsAt(StampText(dt, frac), 14, 2) == Some(dt.minute)
    ensures DigitsAt(StampText(dt, frac), 17, 2) == Some(dt.second)
    ensures StampText(dt, frac)[10] == ' '
    ensures StampText(dt, frac)[13] == ':' && StampText(dt, frac)[16] == ':'
  {
    var c := ClockText(dt);
    PaddedWidths(dt);
    StampSlices(DateText(dt), c, FractionText(frac), SignChar(dt.offset), OffsetHours(dt.offset), OffsetMinutes(dt.offset));
    ClockAt(StampText(dt, frac), c, Padded(dt.hour, 2), Padded(dt.minute, 2), Padded(dt.second, 2));
  }

  /** A clock `h:m:s` at index 11 of `t`. */
  lemma {:induction false} ClockAt(t: string, c: string, h: string, m: string, sec: string)
    requires |h| == 2 && |m| == 2 && |sec| == 2 && c == h + ":" + m + ":" + sec
    requires AllDigits(h) && AllDigits(m) && AllDigits(sec)
    requires |t| >= 19 && t[11..19] == c
    ensures t[13] == ':' && t[16] == ':'
    ensures DigitsAt(t, 11, 2) == Some(DigitsValue(h))
    ensures DigitsAt(t, 14, 2) == Some(DigitsValue(m))
    ensures DigitsAt(t, 17, 2) == Some(DigitsValue(sec))
  {
    TripleSlices(h, ":", m, sec, 2);
    SubSlice(t, 11, c, 0, 2);
    SubSlice(t, 11, c, 3, 5);
    SubSlice(t, 11, c, 6, 8);
    assert t[13] == c[2] && t[16] == c[5];
  }

  /** A slice of a slice of `t` is a slice of `t`. */
  lemma {:induction false} SubSlice(t: string, lo: nat, c: string, i: nat, j: nat)
    requires lo + |c| <= |t| && t[lo..lo + |c|] == c && i <= j <= |c|
    ensures t[lo + i..lo + j] == c[i..j]
  {
    forall k | 0 <= k < j - i
      ensures t[lo + i..lo + j][k] == c[i..j][k]
    {
      assert t[lo..lo + |c|][i + k] == t[lo + i + k];
    }
  }

  /** Where a trailing sign, hours and minutes sit. */
  lemma {:induction false} OffsetSlices(head: string, sign: char, hh: string, mm: string)
    requires |hh| == 2 && |mm| == 2 && AllDigits(hh) && AllDigits(mm)
    ensures (head + [sign] + hh + mm)[|head|] == sign
    ensures DigitsAt(head + [sign] + hh + mm, |head| + 1, 2) == Some(DigitsValue(hh))
    ensures DigitsAt(head + [sign] + hh + mm, |head| + 3, 2) == Some(DigitsValue(mm))
  {
    var t := head + [sign] + hh + mm;
    assert t[|head| + 1..|head| + 3] == hh;
    assert t[|head| + 3..|head| + 5] == mm;
  }

  /** The fraction digits of a stamp text. */
  lemma {:induction false} StampFraction(dt: DateTime, frac: string)
    requires FractionOf(frac, dt.microsecond)
    ensures StampText(dt, frac)[20..20 + |frac|] == frac
    ensures frac != [] ==> StampText(dt, frac)[19] == '.'
  {
    var t := StampText(dt, frac);
    var f := FractionText(frac);
    StampSlices(DateText(dt), ClockText(dt), f, SignChar(dt.offset), OffsetHours(dt.offset), OffsetMinutes(dt.offset));
    if frac != [] {
      FractionAt(t, f, frac);
    }
  }

  lemma {:induction false} FractionAt(t: string, f: string, frac: string)
    requires f == "." + frac && |t| >= 19 + |f| && t[19..19 + |f|] == f
    ensures t[20..20 + |frac|] == frac && t[19] == '.'
  {
    assert t[19] == f[0];
    assert t[20..20 + |frac|] == f[1..];
  }

  /** And its offset. */
  lemma {:induction false} StampOffset(dt: DateTime, frac: string)
    requires FractionOf(frac, dt.microsecond)
    ensures StampText(dt, frac)[ZoneStart(|frac|)] == SignChar(dt.offset)
    ensures DigitsAt(StampText(dt, frac), ZoneStart(|frac|) + 1, 2) == Some(Abs(dt.offset) / 60)
    ensures DigitsAt(StampText(dt, frac), ZoneStart(|frac|) + 3, 2) == Some(Abs(dt.offset) % 60)
  {
    var head := DateText(dt) + " " + (ClockText(dt) + FractionText(frac));
    HeadLength(DateText(dt), ClockText(dt), frac);
    OffsetSlices(head, SignChar(dt.offset), OffsetHours(dt.offset), OffsetMinutes(dt.offset));
  }

  lemma {:induction false} HeadLength(d: string, c: string, frac: string)
    requires |d| == 10 && |c| == 8
    ensures |d + " " + (c + FractionText(frac))| == ZoneStart(|frac|)
  {
  }

  /** A text with the pattern's separators and the fields of `dt` in the
      pattern's places is captured as `dt`. */
  lemma {:induction false} CapturedFields(t: string, fracLen: nat, dt: DateTime)
    requires fracLen <= 6 && |t| == ZoneStart(fracLen) + 5 && Punctuated(t, fracLen)
    requires DigitsAt(t, 0, 4) == Some(dt.year) && DigitsAt(t, 5, 2) == Some(dt.month)
    requires DigitsAt(t, 8, 2) == Some(dt.day) && DigitsAt(t, 11, 2) == Some(dt.hour)
    requires DigitsAt(t, 14, 2) == Some(dt.minute) && DigitsAt(t, 17, 2) == Some(dt.second)
    requires fracLen == 0 ==> dt.microsecond == 0
    requires fracLen > 0 ==> AllDigits(t[20..20 + fracLen]) && Microseconds(t[20..20 + fracLen]) == dt.microsecond
    requires t[ZoneStart(fracLen)] == SignChar(dt.offset)
    requires DigitsAt(t, ZoneStart(fracLen) + 1, 2) == Some(Abs(dt.offset) / 60)
    requires DigitsAt(t, ZoneStart(fracLen) + 3, 2) == Some(Abs(dt.offset) % 60)
    ensures Captured(t, fracLen) == Some(dt)
  {
    var a := Abs(dt.offset);
    assert a / 60 * 60 + a % 60 == a;
  }

  /** The pattern reads back every field of a datetime written in its shape. */
  lemma {:induction false} StrptimeStampText(dt: DateTime, frac: string)
    requires FractionOf(frac, dt.microsecond)
    ensures Strptime(StampText(dt, frac), |frac|) == Success(dt)
  {
    StampDateFields(dt, frac);
    StampClockFields(dt, frac);
    StampFraction(dt, frac);
    StampOffset(dt, frac);
    CapturedFields(StampText(dt, frac), |frac|, dt);
  }

  /** Of the two patterns `to_datetime` tries, the one for the text's shape
      reads it back and the other rejects it. */
  lemma {:induction false} StrptimeEitherPattern(dt: DateTime, frac: string)
    requires FractionOf(frac, dt.microsecond)
    ensures frac == [] ==> StrptimeWhole(StampText(dt, frac)) == Success(dt)
    ensures frac != [] ==> StrptimeWhole(StampText(dt, frac)).Failure?
    ensures frac != [] ==> StrptimeFraction(StampText(dt, frac)) == Success(dt)
  {
    StrptimeStampText(dt, frac);
    if frac != [] {
      PatternByLength(StampText(dt, frac), |frac|);
    }
  }

  /** A text with `n` fraction digits is too long for the pattern without
      `%f`, and the pattern with `%f` reads exactly `n` digits from it. */
  lemma {:induction false} PatternByLength(t: string, n: nat)
    requires 1 <= n <= 6 && |t| == ZoneStart(n) + 5
    ensures StrptimeWhole(t).Failure?
    ensures StrptimeFraction(t) == Strptime(t, n)
  {
  }
}
