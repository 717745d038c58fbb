/** haiker/types.py: the converters `list_of`, `none_or` and `to_datetime`,
    and the records Status, User, Keyword and Target built from the JSON
    objects the Haiku API returns. */
module Types {
  import opened Wrappers
  import opened Text
  import opened Calendar
  import opened Exceptions
  import opened Utils
  import opened Timestamps

  // ---------------------------------------------------------------------
  // Decoded JSON

  /** A value as `json.loads` gives it: None, bool, int, str, list, or a dict
      with distinct str keys. */
  datatype Json =
    | JNull
    | JBool(b: bool)
    | JInt(i: int)
    | JStr(s: string)
    | JList(items: seq<Json>)
    | JObj(members: Dict<Json>)

  function Sum(s: seq<nat>): nat {
    if s == [] then 0 else s[0] + Sum(s[1..])
  }

  lemma {:induction false} SumBound(s: seq<nat>, k: nat)
    requires k < |s|
    ensures s[k] <= Sum(s)
  {
    if k > 0 {
      SumBound(s[1..], k - 1);
    }
  }

  /** How many lists and dicts a value nests; strings count nothing, since
      iterating over a str gives strs again. */
  function Size(j: Json): nat {
    match j
    case JList(items) => 1 + Sum(seq(|items|, k requires 0 <= k < |items| => Size(items[k])))
    case JObj(members) => 1 + Sum(seq(|members|, k requires 0 <= k < |members| => Size(members[k].1)))
    case _ => 0
  }

  lemma {:induction false} SizeItem(items: seq<Json>, k: nat)
    requires k < |items|
    ensures Size(items[k]) < Size(JList(items))
  {
    SumBound(seq(|items|, i requires 0 <= i < |items| => Size(items[i])), k);
  }

  lemma {:induction false} SizeMember(members: Dict<Json>, k: nat)
    requires k < |members|
    ensures Size(members[k].1) < Size(JObj(members))
  {
    SumBound(seq(|members|, i requires 0 <= i < |members| => Size(members[i].1)), k);
  }

  // ---------------------------------------------------------------------
  // d[key] and d.get(key)

  /** The value stored under `key`: the first entry holding it. */
  function Find(d: seq<(string, Json)>, key: string): Option<Json> {
    if d == [] then None
    else if d[0].0 == key then Some(d[0].1)
    else Find(d[1..], key)
  }

  /** A value found is stored under the key, and nothing is found only when
      no entry holds the key. */
  lemma {:induction false} FindSpec(d: seq<(string, Json)>, key: string)
    ensures Find(d, key).Some? ==> exists k :: 0 <= k < |d| && d[k] == (key, Find(d, key).value)
    ensures Find(d, key).None? ==> forall k :: 0 <= k < |d| ==> d[k].0 != key
  {
    if d != [] && d[0].0 != key {
      FindSpec(d[1..], key);
      if Find(d, key).Some? {
        var k :| 0 <= k < |d[1..]| && d[1..][k] == (key, Find(d, key).value);
        assert d[k + 1] == (key, Find(d, key).value);
      } else {
        forall k | 0 <= k < |d| ensures d[k].0 != key {
          if k > 0 {
            assert d[k] == d[1..][k - 1];
          }
        }
      }
    }
  }

  /** In a dict every key finds the value stored with it. */
  lemma {:induction false} FindAt(d: Dict<Json>, k: nat)
    requires k < |d|
    ensures Find(d, d[k].0) == Some(d[k].1)
  {
    if k > 0 {
      assert d[0].0 != d[k].0;
      var rest: Dict<Json> := d[1..];
      FindAt(rest, k - 1);
    }
  }

  /** A value found in a dict is smaller than the dict. */
  lemma {:induction false} FindSize(members: Dict<Json>, key: string)
    ensures Find(members, key).Some? ==> Size(Find(members, key).value) < Size(JObj(members))
  {
    if Find(members, key).Some? {
      FindSpec(members, key);
      var k :| 0 <= k < |members| && members[k] == (key, Find(members, key).value);
      SizeMember(members, k);
    }
  }

  /** `d[key]`: TypeError when `d` is not a dict, KeyError when the key is
      missing. A value found is smaller than the dict. */
  function Subscript(j: Json, key: string): (r: Result<Json, Exception>)
    ensures r.Success? <==> j.JObj? && Find(j.members, key).Some?
    ensures r.Success? ==> r.value == Find(j.members, key).value && Size(r.value) < Size(j)
    ensures j.JObj? && Find(j.members, key).None? ==> r == Failure(MissingKey(key))
    ensures !j.JObj? ==> r.Failure? && r.error.Builtin? && r.error.kind == TypeError
  {
    match j
    case JObj(members) =>
      FindSize(members, key);
      if Find(members, key).Some? then Success(Find(members, key).value)
      else Failure(MissingKey(key))
    case _ => Failure(Builtin(TypeError, "object is not subscriptable"))
  }

  /** The value `d.get(key)` gives on a dict: None for a missing key. */
  function Get(members: Dict<Json>, key: string): Json {
    match Find(members, key)
    case Some(v) => v
    case None => JNull
  }

  /** `d.get(key)`: AttributeError when `d` is not a dict. */
  function GetOrNone(j: Json, key: string): (r: Result<Json, Exception>)
    ensures r.Success? <==> j.JObj?
    ensures r.Success? ==> r.value == Get(j.members, key) && Size(r.value) < Size(j)
    ensures r.Failure? ==> r.error.Builtin? && r.error.kind == AttributeError
  {
    match j
    case JObj(members) =>
      FindSize(members, key);
      Success(Get(members, key))
    case _ => Failure(Builtin(AttributeError, "object has no attribute 'get'"))
  }

  // ---------------------------------------------------------------------
  // Iteration, list_of and none_or

  /** `for e in x`: the items of a list, the one-character strs of a str,
      the keys of a dict; TypeError for anything else. No item is larger
      than `x`. */
  function Iterate(x: Json): (r: Result<seq<Json>, Exception>)
    ensures r.Success? <==> x.JList? || x.JStr? || x.JObj?
    ensures x.JList? ==> r == Success(x.items)
    ensures x.JStr? ==> r.Success? && |r.value| == |x.s|
    ensures x.JObj? ==> r.Success? && |r.value| == |x.members|
    ensures r.Success? ==> forall k :: 0 <= k < |r.value| ==> Size(r.value[k]) <= Size(x)
    ensures r.Failure? ==> r.error.Builtin? && r.error.kind == TypeError
  {
    match x
    case JList(items) =>
      forall k | 0 <= k < |items| ensures Size(items[k]) <= Size(x) {
        SizeItem(items, k);
      }
      Success(items)
    case JStr(s) => Success(seq(|s|, k requires 0 <= k < |s| => JStr([s[k]])))
    case JObj(members) => Success(seq(|members|, k requires 0 <= k < |members| => JStr(members[k].0)))
    case _ => Failure(Builtin(TypeError, "object is not iterable"))
  }

  /** `[f(e) for e in xs]`: the results in order, or the exception of the
      first element `f` raises on; the elements after it are not visited. */
  function MapEach<B>(f: Json --> Result<B, Exception>, xs: seq<Json>): (r: Result<seq<B>, Exception>)
    requires forall k :: 0 <= k < |xs| ==> f.requires(xs[k])
    ensures r.Success? <==> forall k :: 0 <= k < |xs| ==> f(xs[k]).Success?
    ensures r.Success? ==> |r.value| == |xs| && forall k :: 0 <= k < |xs| ==> r.value[k] == f(xs[k]).value
    ensures r.Failure? ==> exists k :: 0 <= k < |xs| && f(xs[k]) == Failure(r.error)
                                       && forall m :: 0 <= m < k ==> f(xs[m]).Success?
  {
    if xs == [] then Success([])
    else
      match f(xs[0])
      case Failure(e) => Failure(e)
      case Success(h) =>
        var rest := MapEach(f, xs[1..]);
        if rest.Failure? then
          var k :| 0 <= k < |xs[1..]| && f(xs[1..][k]) == Failure(rest.error)
                   && forall m :: 0 <= m < k ==> f(xs[1..][m]).Success?;
          assert f(xs[k + 1]) == Failure(rest.error);
          assert forall m :: 0 <= m < k + 1 ==> f(xs[m]).Success? by {
            forall m | 0 <= m < k + 1 ensures f(xs[m]).Success? {
              if m > 0 {
                assert xs[m] == xs[1..][m - 1];
              }
            }
          }
          Failure(rest.error)
        else
          Success([h] + rest.value)
  }

  /** `list_of(f)(x)`: `f` applied to every element of `x`. */
  function ListOf<B>(f: Json --> Result<B, Exception>, x: Json): (r: Result<seq<B>, Exception>)
    requires Iterate(x).Success? ==> forall k :: 0 <= k < |Iterate(x).value| ==> f.requires(Iterate(x).value[k])
    ensures Iterate(x).Failure? ==> r == Failure(Iterate(x).error)
    ensures Iterate(x).Success? ==> r == MapEach(f, Iterate(x).value)
  {
    var xs :- Iterate(x);
    MapEach(f, xs)
  }

  /** `none_or(f)(x)`: None for None, otherwise `f(x)`. */
  function NoneOr<B>(f: Json --> Result<B, Exception>, x: Json): (r: Result<Option<B>, Exception>)
    requires x != JNull ==> f.requires(x)
    ensures x == JNull ==> r == Success(None)
    ensures x != JNull ==> (r.Success? <==> f(x).Success?)
    ensures x != JNull && r.Success? ==> r.value == Some(f(x).value)
    ensures x != JNull && r.Failure? ==> r.error == f(x).error
  {
    if x == JNull then Success(None)
    else
      var v :- f(x);
      Success(Some(v))
  }

  // ---------------------------------------------------------------------
  // str() and int() of a decoded JSON value

  /** `str(x)`: the text of a str, `None`/`True`/`False`, the decimal text
      of an int. The repr of a list or a dict is not modelled. */
  function StrOf(x: Json): (r: Result<string, Exception>)
    ensures r.Success? <==> !(x.JList? || x.JObj?)
    ensures x.JStr? ==> r == Success(x.s)
    ensures x.JInt? ==> r == Success(IntToDecimal(x.i))
    ensures r.Failure? ==> r.error.Builtin? && r.error.kind == Unmodelled
  {
    match x
    case JNull => Success("None")
    case JBool(b) => Success(if b then "True" else "False")
    case JInt(i) => Success(IntToDecimal(i))
    case JStr(s) => Success(s)
    case _ => Failure(Builtin(Unmodelled, "repr of a container"))
  }

  /** `int(x)`: an int as it is, a bool as 1 or 0, a str holding a decimal
      integer (with optional sign and surrounding white space); ValueError
      for any other str, TypeError for None, lists and dicts. */
  function IntOf(x: Json): (r: Result<int, Exception>)
    ensures r.Success? <==> x.JInt? || x.JBool? || (x.JStr? && ParseInt(x.s).Some?)
    ensures x.JStr? && r.Success? ==> r.value == ParseInt(x.s).value
    ensures x.JStr? && r.Failure? ==> r.error.Builtin? && r.error.kind == ValueError
    ensures (x.JNull? || x.JList? || x.JObj?) ==> r.Failure? && r.error.Builtin? && r.error.kind == TypeError
  {
    match x
    case JInt(i) => Success(i)
    case JBool(b) => Success(if b then 1 else 0)
    case JStr(s) =>
      if ParseInt(s).Some? then Success(ParseInt(s).value)
      else Failure(Builtin(ValueError, "invalid literal for int() with base 10: '" + s + "'"))
    case _ => Failure(Builtin(TypeError, "int() argument must be a string or a number"))
  }

  /** `int(str(x))` gives back an int, and `int()` reads the decimal text of
      every int, as the API writes its counts. */
  lemma {:induction false} IntOfStrOf(i: int)
    ensures StrOf(JInt(i)).Success? && IntOf(JStr(StrOf(JInt(i)).value)) == Success(i)
    ensures IntOf(JStr(IntToDecimal(i))) == Success(i)
  {
    IntDecimalRoundTrip(i);
  }

  // ---------------------------------------------------------------------
  // to_datetime

  /** `x[:-3] + x[-2:]`: the third character from the end removed; a text
      shorter than three characters is unchanged. */
  function DropThirdToLast(x: string): (y: string)
    ensures |x| >= 3 ==> |y| == |x| - 1 && y[..|x| - 3] == x[..|x| - 3] && y[|x| - 3..] == x[|x| - 2..]
    ensures |x| < 3 ==> y == x
  {
    if |x| >= 3 then x[..|x| - 3] + x[|x| - 2..] else x
  }

  /** The rewriting `to_datetime` does before parsing: `Z` becomes `+00:00`,
      `T` becomes a space, and the colon of the offset is dropped. */
  function Normalise(x: string): string {
    DropThirdToLast(ReplaceChar(ReplaceChar(x, 'Z', "+00:00"), 'T', " "))
  }

  /** `to_datetime(x)`: the rewritten text parsed without, then with, a
      fraction of a second. AttributeError when `x` is not a str, the
      ValueError of the second pattern when neither matches. */
  function ToDatetime(x: Json): (r: Result<DateTime, Exception>)
    ensures !x.JStr? ==> r.Failure? && r.error.Builtin? && r.error.kind == AttributeError
    ensures x.JStr? && r.Failure? ==> r.error == Builtin(ValueError, Normalise(x.s))
    ensures x.JStr? && StrptimeWhole(Normalise(x.s)).Success? ==> r == StrptimeWhole(Normalise(x.s))
    ensures x.JStr? && StrptimeWhole(Normalise(x.s)).Failure? ==> r == StrptimeFraction(Normalise(x.s))
  {
    if !x.JStr? then Failure(Builtin(AttributeError, "object has no attribute 'replace'"))
    else
      var t := Normalise(x.s);
      match StrptimeWhole(t)
      case Success(dt) => Success(dt)
      case Failure(_) => StrptimeFraction(t)
  }

  /** Digits are neither `Z` nor `T`. */
  lemma {:induction false} DigitsNoLetters(s: string)
    requires AllDigits(s)
    ensures 'Z' !in s && 'T' !in s
  {
  }

  /** The date of a written timestamp holds no letter. */
  lemma {:induction false} DateNoLetters(dt: DateTime)
    ensures 'Z' !in DateText(dt) && 'T' !in DateText(dt)
  {
    var y, m, d := Padded(dt.year, 4), Padded(dt.month, 2), Padded(dt.day, 2);
    DigitsNoLetters(y);
    DigitsNoLetters(m);
    DigitsNoLetters(d);
    assert DateText(dt) == y + "-" + m + "-" + d;
  }

  /** Nor do its clock and fraction. */
  lemma {:induction false} ClockNoLetters(dt: DateTime, frac: string)
    requires FractionOf(frac, dt.microsecond)
    ensures 'Z' !in ClockText(dt) + FractionText(frac) && 'T' !in ClockText(dt) + FractionText(frac)
  {
    var h, m, sec := Padded(dt.hour, 2), Padded(dt.minute, 2), Padded(dt.second, 2);
    DigitsNoLetters(h);
    DigitsNoLetters(m);
    DigitsNoLetters(sec);
    DigitsNoLetters(frac);
    assert ClockText(dt) == h + ":" + m + ":" + sec;
    assert FractionText(frac) == [] || FractionText(frac) == "." + frac;
  }

  /** Nor does a `+HH:MM` offset. */
  lemma {:induction false} ColonZoneNoLetters(offset: int)
    requires -MinutesPerDay < offset < MinutesPerDay
    ensures 'Z' !in ColonZone(offset) && 'T' !in ColonZone(offset)
  {
    DigitsNoLetters(OffsetHours(offset));
    DigitsNoLetters(OffsetMinutes(offset));
    assert ColonZone(offset) == [SignChar(offset)] + OffsetHours(offset) + ":" + OffsetMinutes(offset);
  }

  lemma {:induction false} UtcColonZone()
    ensures ColonZone(0) == "+00:00"
  {
    assert Padded(0, 2) == "00";
  }

  lemma {:induction false} UtcRewritten(z: string)
    requires z == "Z"
    ensures ReplaceChar(z, 'Z', "+00:00") == "+00:00"
  {
    assert ReplaceChar(z, 'Z', "+00:00") == "+00:00" + ReplaceChar([], 'Z', "+00:00");
  }

  /** The zone after `Z` is rewritten: `+00:00` for UTC, else as written. */
  lemma {:induction false} ZoneRewritten(offset: int)
    requires -MinutesPerDay < offset < MinutesPerDay
    ensures ReplaceChar(ZoneText(offset), 'Z', "+00:00") == ColonZone(offset)
  {
    if offset == 0 {
      UtcColonZone();
      UtcRewritten(ZoneText(0));
    } else {
      ColonZoneNoLetters(offset);
      ReplaceCharAbsent(ColonZone(offset), 'Z', "+00:00");
    }
  }

  /** Replacing a letter in `a`, a one-letter text and `b`, where the letter
      occurs only in that one-letter text. */
  lemma {:induction false} ReplaceMiddle(a: string, m: char, b: string, c: char, r: string)
    requires c !in a && c !in b
    ensures ReplaceChar(a + [m] + b, c, r) == a + (if m == c then r else [m]) + b
  {
    ReplaceCharAppend(a + [m], b, c, r);
    ReplaceCharAppend(a, [m], c, r);
    ReplaceCharAbsent(a, c, r);
    ReplaceCharAbsent(b, c, r);
    ReplaceOne(m, c, r);
  }

  lemma {:induction false} ReplaceOne(m: char, c: char, r: string)
    ensures ReplaceChar([m], c, r) == if m == c then r else [m]
  {
    assert ReplaceChar([m], c, r) == (if m == c then r else [m]) + ReplaceChar([], c, r);
  }

  /** Rewriting `Z` then `T` in a date, a `T`, a clock and a zone where only
      the `T` and the zone's `Z` are letters. */
  lemma {:induction false} RewriteLetters(d: string, rest: string, zone: string, colon: string)
    requires 'Z' !in d && 'T' !in d && 'Z' !in rest && 'T' !in rest && 'T' !in colon
    requires ReplaceChar(zone, 'Z', "+00:00") == colon
    ensures ReplaceChar(ReplaceChar(d + "T" + rest + zone, 'Z', "+00:00"), 'T', " ") == d + " " + rest + colon
  {
    var head := d + "T" + rest;
    ReplaceCharAppend(head, zone, 'Z', "+00:00");
    assert head == d + ['T'] + rest;
    ReplaceMiddle(d, 'T', rest, 'Z', "+00:00");
    assert ReplaceChar(head + zone, 'Z', "+00:00") == head + colon;
    ReplaceCharAppend(head, colon, 'T', " ");
    ReplaceCharAbsent(colon, 'T', " ");
    ReplaceMiddle(d, 'T', rest, 'T', " ");
  }

  /** Dropping the colon of a trailing `+HH:MM`. */
  lemma {:induction false} DropColon(p: string, sign: char, hh: string, mm: string)
    requires |hh| == 2 && |mm| == 2
    ensures DropThirdToLast(p + ([sign] + hh + ":" + mm)) == p + [sign] + hh + mm
  {
    var x := p + ([sign] + hh + ":" + mm);
    assert x[..|x| - 3] == p + [sign] + hh;
    assert x[|x| - 2..] == mm;
  }

  /** The rewriting turns RFC 3339 text into the text the strptime patterns
      read: a space for the `T`, `+0000` for `Z`, no colon in the offset. */
  lemma {:induction false} NormaliseRfc3339(dt: DateTime, frac: string)
    requires FractionOf(frac, dt.microsecond)
    ensures Normalise(Rfc3339(dt, frac)) == StampText(dt, frac)
  {
    var d := DateText(dt);
    var rest := ClockText(dt) + FractionText(frac);
    DateNoLetters(dt);
    ClockNoLetters(dt, frac);
    ColonZoneNoLetters(dt.offset);
    ZoneRewritten(dt.offset);
    RewriteLetters(d, rest, ZoneText(dt.offset), ColonZone(dt.offset));
    DropColon(d + " " + rest, SignChar(dt.offset), OffsetHours(dt.offset), OffsetMinutes(dt.offset));
  }

  /** `to_datetime` reads back every aware datetime from the RFC 3339 text
      the API writes for it, whatever fraction digits it carries. */
  lemma {:induction false} ToDatetimeRfc3339(dt: DateTime, frac: string)
    requires FractionOf(frac, dt.microsecond)
    ensures ToDatetime(JStr(Rfc3339(dt, frac))) == Success(dt)
  {
    NormaliseRfc3339(dt, frac);
    StrptimeEitherPattern(dt, frac);
  }

  lemma {:induction false} ExampleDate(dt: DateTime)
    requires dt.year == 2010 && dt.month == 1 && dt.day == 2
    ensures DateText(dt) == "2010-01-02"
  {
    assert Padded(2010, 4) == "2010" && Padded(1, 2) == "01" && Padded(2, 2) == "02";
  }

  lemma {:induction false} ExampleClock(dt: DateTime)
    requires dt.hour == 3 && dt.minute == 4 && dt.second == 5
    ensures ClockText(dt) == "03:04:05"
  {
    assert Padded(3, 2) == "03" && Padded(4, 2) == "04" && Padded(5, 2) == "05";
  }

  /** Three zero digits are a fraction of zero microseconds. */
  lemma {:induction false} ZeroMillis(frac: string)
    requires frac == "000"
    ensures AllDigits(frac) && Microseconds(frac) == 0
  {
    assert frac + Zeros(3) == Zeros(6);
    ZerosValue(6);
  }

  /** The RFC 3339 texts of the examples, piece by piece. */
  lemma {:induction false} ExampleText(dt: DateTime, frac: string, fracText: string)
    requires dt.year == 2010 && dt.month == 1 && dt.day == 2
    requires dt.hour == 3 && dt.minute == 4 && dt.second == 5
    requires FractionOf(frac, dt.microsecond) && FractionText(frac) == fracText
    ensures Rfc3339(dt, frac) == "2010-01-02" + "T" + ("03:04:05" + fracText) + ZoneText(dt.offset)
  {
    ExampleDate(dt);
    ExampleClock(dt);
  }

  lemma {:induction false} ExampleLiterals()
    ensures "2010-01-02" + "T" + ("03:04:05" + []) + "Z" == "2010-01-02T03:04:05Z"
    ensures "2010-01-02" + "T" + ("03:04:05" + []) + "+09:00" == "2010-01-02T03:04:05+09:00"
    ensures "2010-01-02" + "T" + ("03:04:05" + ".000") + "+09:00" == "2010-01-02T03:04:05.000+09:00"
  {
  }

  lemma {:induction false} ExampleZones()
    ensures ZoneText(0) == "Z" && ZoneText(540) == "+09:00"
  {
    EastZone(540);
  }

  lemma {:induction false} EastZone(offset: int)
    requires offset == 540
    ensures ZoneText(offset) == "+09:00"
  {
    assert Abs(offset) / 60 == 9 && Abs(offset) % 60 == 0;
    assert Padded(9, 2) == "09" && Padded(0, 2) == "00";
    assert ColonZone(offset) == "+" + "09" + ":" + "00";
  }

  /** `to_datetime('2010-01-02T03:04:05Z')` is 03:04:05 UTC on 2 January 2010. */
  lemma {:induction false} ToDatetimeUtcExample(x: string, dt: DateTime)
    requires x == "2010-01-02T03:04:05Z"
    requires dt == Civil(2010, 1, 2, 3, 4, 5, 0, 0)
    ensures ToDatetime(JStr(x)) == Success(dt)
  {
    ExampleText(dt, "", []);
    ExampleZones();
    ExampleLiterals();
    ToDatetimeRfc3339(dt, "");
  }

  /** `to_datetime('2010-01-02T03:04:05+09:00')` is the same clock nine hours
      east of UTC. */
  lemma {:induction false} ToDatetimeEastExample(x: string, dt: DateTime)
    requires x == "2010-01-02T03:04:05+09:00"
    requires dt == Civil(2010, 1, 2, 3, 4, 5, 0, 540)
    ensures ToDatetime(JStr(x)) == Success(dt)
  {
    ExampleText(dt, "", []);
    ExampleZones();
    ExampleLiterals();
    ToDatetimeRfc3339(dt, "");
  }

  /** `to_datetime('2010-01-02T03:04:05.000+09:00')`: zero milliseconds
      read as zero microseconds. */
  lemma {:induction false} ToDatetimeMillisExample(x: string, dt: DateTime)
    requires x == "2010-01-02T03:04:05.000+09:00"
    requires dt == Civil(2010, 1, 2, 3, 4, 5, 0, 540)
    ensures ToDatetime(JStr(x)) == Success(dt)
  {
    ZeroMillis("000");
    ExampleText(dt, "000", ".000");
    ExampleZones();
    ExampleLiterals();
    ToDatetimeRfc3339(dt, "000");
  }

  /** `[f(e) for e in [x0, x1, x2]]` when `f` succeeds on each. */
  lemma {:induction false} MapEachThree<B>(f: Json --> Result<B, Exception>, x0: Json, x1: Json, x2: Json, y0: B, y1: B, y2: B)
    requires f.requires(x0) && f.requires(x1) && f.requires(x2)
    requires f(x0) == Success(y0) && f(x1) == Success(y1) && f(x2) == Success(y2)
    ensures MapEach(f, [x0, x1, x2]) == Success([y0, y1, y2])
  {
    var xs := [x0, x1, x2];
    var r := MapEach(f, xs);
    assert f(xs[0]).Success? && f(xs[1]).Success? && f(xs[2]).Success?;
    assert r.Success? && |r.value| == 3;
    assert r.value[0] == y0 && r.value[1] == y1 && r.value[2] == y2;
    assert r.value == [y0, y1, y2];
  }

  /** `list_of(str)([1, 2, 3]) == ['1', '2', '3']`. */
  lemma {:induction false} ListOfStrExample()
    ensures ListOf(StrOf, JList([JInt(1), JInt(2), JInt(3)])) == Success(["1", "2", "3"])
  {
    assert IntToDecimal(1) == "1" && IntToDecimal(2) == "2" && IntToDecimal(3) == "3";
    MapEachThree(StrOf, JInt(1), JInt(2), JInt(3), "1", "2", "3");
  }

  lemma SmallDecimals()
    ensures IntToDecimal(1) == "1" && IntToDecimal(2) == "2" && IntToDecimal(3) == "3"
  {
  }

  lemma {:induction false} IntOfDecimal(s: string, i: int)
    requires s == IntToDecimal(i)
    ensures IntOf(JStr(s)) == Success(i)
  {
    IntOfStrOf(i);
  }

  /** `list_of(int)(['1', '2', '3']) == [1, 2, 3]`. */
  lemma {:induction false} ListOfIntExample()
    ensures ListOf(IntOf, JList([JStr("1"), JStr("2"), JStr("3")])) == Success([1, 2, 3])
  {
    SmallDecimals();
    IntOfDecimal("1", 1);
    IntOfDecimal("2", 2);
    IntOfDecimal("3", 3);
    MapEachThree(IntOf, JStr("1"), JStr("2"), JStr("3"), 1, 2, 3);
  }

  /** `none_or(str)('a') == 'a'`, `none_or(int)(1) == 1`, and None for None. */
  lemma {:induction false} NoneOrExamples()
    ensures NoneOr(StrOf, JStr("a")) == Success(Some("a"))
    ensures NoneOr(IntOf, JInt(1)) == Success(Some(1))
    ensures NoneOr(StrOf, JNull) == Success(None)
    ensures NoneOr(IntOf, JNull) == Success(None)
  {
  }

  // ---------------------------------------------------------------------
  // Records

  /** A Haiku user. */
  datatype User = User(followersCount: int, name: string, id: string,
                       profileImageUrl: string, screenName: string, url: string)

  /** What an entry was posted to: a keyword or a user's page. */
  datatype Target = Target(title: string, word: string, urlName: Option<string>)

  /** A keyword (a topic page). */
  datatype Keyword = Keyword(entryCount: int, followersCount: int, link: string,
                             relatedKeywords: Option<seq<string>>, title: string,
                             word: string, urlName: Option<string>)

  /** The `replies` field of a Status: None, or the list of replies, each a
      Status itself. */
  datatype Replies = NoReplies | Replies(statuses: seq<Status>)

  /** An entry, with the replies to it. */
  datatype Status = Status(link: string, createdAt: DateTime, favorited: int,
                           haikuText: Option<string>, html: Option<string>,
                           htmlTouch: Option<string>, htmlMobile: Option<string>,
                           id: string, inReplyToStatusId: Option<string>,
                           inReplyToUserId: Option<string>, keyword: Option<string>,
                           replies: Replies, source: string,
                           target: Option<Target>, text: Option<string>, user: User)

  /** `j` is a dict holding every one of `keys`. */
  predicate HasKeys(j: Json, keys: set<string>) {
    j.JObj? && forall k :: k in keys ==> Find(j.members, k).Some?
  }

  /** `str(d[key])`. */
  function StrAt(j: Json, key: string): (r: Result<string, Exception>)
    ensures r.Success? ==> j.JObj? && Find(j.members, key).Some?
  {
    var v :- Subscript(j, key);
    StrOf(v)
  }

  /** `int(d[key])`. */
  function IntAt(j: Json, key: string): (r: Result<int, Exception>)
    ensures r.Success? ==> j.JObj? && Find(j.members, key).Some?
  {
    var v :- Subscript(j, key);
    IntOf(v)
  }

  /** `none_or(str)(d.get(key))`: None exactly when the key is missing or
      holds None. */
  function OptStrAt(j: Json, key: string): (r: Result<Option<string>, Exception>)
    ensures r.Success? ==> j.JObj? && (r.value.None? <==> Get(j.members, key) == JNull)
  {
    var v :- GetOrNone(j, key);
    NoneOr(StrOf, v)
  }

  const UserKeys: set<string> :=
    {"followers_count", "name", "id", "profile_image_url", "screen_name", "url"}

  /** `User(d)`: every field read with `d[...]`, in the order the
      constructor reads them, so the first missing key is the one
      reported. */
  function BuildUser(j: Json): (r: Result<User, Exception>)
    ensures r.Success? ==> HasKeys(j, UserKeys)
    ensures !j.JObj? ==> r.Failure? && r.error.Builtin? && r.error.kind == TypeError
    ensures j.JObj? && Find(j.members, "followers_count").None? ==> r == Failure(MissingKey("followers_count"))
  {
    var followersCount :- IntAt(j, "followers_count");
    var name :- StrAt(j, "name");
    var id :- StrAt(j, "id");
    var profileImageUrl :- StrAt(j, "profile_image_url");
    var screenName :- StrAt(j, "screen_name");
    var url :- StrAt(j, "url");
    Success(User(followersCount, name, id, profileImageUrl, screenName, url))
  }

  const TargetKeys: set<string> := {"title", "word"}

  /** `Target(d)`. */
  function BuildTarget(j: Json): (r: Result<Target, Exception>)
    ensures r.Success? ==> HasKeys(j, TargetKeys)
    ensures r.Success? ==> (r.value.urlName.None? <==> Get(j.members, "url_name") == JNull)
    ensures !j.JObj? ==> r.Failure? && r.error.Builtin? && r.error.kind == TypeError
    ensures j.JObj? && Find(j.members, "title").None? ==> r == Failure(MissingKey("title"))
  {
    var title :- StrAt(j, "title");
    var word :- StrAt(j, "word");
    var urlName :- OptStrAt(j, "url_name");
    Success(Target(title, word, urlName))
  }

  /** `list_of(str)`. */
  function StrList(x: Json): Result<seq<string>, Exception> {
    ListOf(StrOf, x)
  }

  /** `none_or(list_of(str))(d.get(key))`. */
  function OptStrListAt(j: Json, key: string): (r: Result<Option<seq<string>>, Exception>)
    ensures r.Success? ==> j.JObj? && (r.value.None? <==> Get(j.members, key) == JNull)
  {
    var v :- GetOrNone(j, key);
    NoneOr(StrList, v)
  }

  const KeywordKeys: set<string> := {"entry_count", "followers_count", "link", "title", "word"}

  /** The first four fields `Keyword(d)` reads: the two counts, the link
      and the related keywords, a list of strs or None. */
  function KeywordHead(j: Json): (r: Result<(int, int, string, Option<seq<string>>), Exception>)
    ensures r.Success? ==> j.JObj? && Find(j.members, "entry_count").Some?
    ensures r.Success? ==> Find(j.members, "followers_count").Some? && Find(j.members, "link").Some?
    ensures r.Success? ==> (r.value.3.None? <==> Get(j.members, "related_keywords") == JNull)
    ensures !j.JObj? ==> r.Failure? && r.error.Builtin? && r.error.kind == TypeError
    ensures j.JObj? && Find(j.members, "entry_count").None? ==> r == Failure(MissingKey("entry_count"))
  {
    var entryCount :- IntAt(j, "entry_count");
    var followersCount :- IntAt(j, "followers_count");
    var link :- StrAt(j, "link");
    var relatedKeywords :- OptStrListAt(j, "related_keywords");
    Success((entryCount, followersCount, link, relatedKeywords))
  }

  /** Then its title, its word and its URL name, which may be None. */
  function KeywordNames(j: Json): (r: Result<(string, string, Option<string>), Exception>)
    ensures r.Success? ==> j.JObj? && Find(j.members, "title").Some? && Find(j.members, "word").Some?
    ensures r.Success? ==> (r.value.2.None? <==> Get(j.members, "url_name") == JNull)
  {
    var title :- StrAt(j, "title");
    var word :- StrAt(j, "word");
    var urlName :- OptStrAt(j, "url_name");
    Success((title, word, urlName))
  }

  /** `Keyword(d)`: the optional fields are None exactly when the dict has
      None there or nothing at all. */
  function BuildKeyword(j: Json): (r: Result<Keyword, Exception>)
    ensures r.Success? ==> HasKeys(j, KeywordKeys)
    ensures r.Success? ==> (r.value.relatedKeywords.None? <==> Get(j.members, "related_keywords") == JNull)
    ensures r.Success? ==> (r.value.urlName.None? <==> Get(j.members, "url_name") == JNull)
    ensures !j.JObj? ==> r.Failure? && r.error.Builtin? && r.error.kind == TypeError
    ensures j.JObj? && Find(j.members, "entry_count").None? ==> r == Failure(MissingKey("entry_count"))
  {
    var head :- KeywordHead(j);
    var names :- KeywordNames(j);
    Success(Keyword(head.0, head.1, head.2, head.3, names.0, names.1, names.2))
  }

  /** `to_datetime(d[key])`. */
  function DatetimeAt(j: Json, key: string): (r: Result<DateTime, Exception>)
    ensures r.Success? ==> j.JObj? && Find(j.members, key).Some?
  {
    var v :- Subscript(j, key);
    ToDatetime(v)
  }

  /** `none_or(Target)(d.get('target'))`. */
  function TargetAt(j: Json): (r: Result<Option<Target>, Exception>)
    ensures r.Success? ==> j.JObj? && (r.value.None? <==> Get(j.members, "target") == JNull)
  {
    var v :- GetOrNone(j, "target");
    NoneOr(BuildTarget, v)
  }

  /** `User(d['user'])`. */
  function UserAt(j: Json): (r: Result<User, Exception>)
    ensures r.Success? ==> j.JObj? && Find(j.members, "user").Some?
  {
    var v :- Subscript(j, "user");
    BuildUser(v)
  }

  /** `none_or(list_of(Status))(d.get('replies'))`: each reply is built as a
      Status in turn. */
  function RepliesAt(j: Json): (r: Result<Replies, Exception>)
    ensures r.Success? ==> j.JObj? && (r.value.NoReplies? <==> Get(j.members, "replies") == JNull)
    decreases Size(j), 0
  {
    var v :- GetOrNone(j, "replies");
    var o :- NoneOr(x requires Size(x) < Size(j) => ListOf(e requires Size(e) < Size(j) => BuildStatus(e), x), v);
    Success(if o.None? then NoReplies else Replies(o.value))
  }

  /** The first three fields `Status(d)` reads: link, creation time and
      the favorite count. */
  function StatusHead(j: Json): (r: Result<(string, DateTime, int), Exception>)
    ensures r.Success? ==> j.JObj? && Find(j.members, "link").Some?
    ensures r.Success? ==> Find(j.members, "created_at").Some? && Find(j.members, "favorited").Some?
    ensures !j.JObj? ==> r.Failure? && r.error.Builtin? && r.error.kind == TypeError
    ensures j.JObj? && Find(j.members, "link").None? ==> r == Failure(MissingKey("link"))
  {
    var link :- StrAt(j, "link");
    var createdAt :- DatetimeAt(j, "created_at");
    var favorited :- IntAt(j, "favorited");
    Success((link, createdAt, favorited))
  }

  /** The four renderings of the text it reads next, each None when absent. */
  function StatusBodies(j: Json): (r: Result<(Option<string>, Option<string>, Option<string>, Option<string>), Exception>)
    ensures r.Success? ==> j.JObj?
    ensures r.Success? ==> (r.value.0.None? <==> Get(j.members, "haiku_text") == JNull)
    ensures r.Success? ==> (r.value.1.None? <==> Get(j.members, "html") == JNull)
    ensures r.Success? ==> (r.value.2.None? <==> Get(j.members, "html_touch") == JNull)
    ensures r.Success? ==> (r.value.3.None? <==> Get(j.members, "html_mobile") == JNull)
  {
    var haikuText :- OptStrAt(j, "haiku_text");
    var html :- OptStrAt(j, "html");
    var htmlTouch :- OptStrAt(j, "html_touch");
    var htmlMobile :- OptStrAt(j, "html_mobile");
    Success((haikuText, html, htmlTouch, htmlMobile))
  }

  /** Then the id, what the entry replies to, and its keyword. */
  function StatusReference(j: Json): (r: Result<(string, Option<string>, Option<string>, Option<string>), Exception>)
    ensures r.Success? ==> j.JObj? && Find(j.members, "id").Some?
    ensures r.Success? ==> (r.value.1.None? <==> Get(j.members, "in_reply_to_status_id") == JNull)
    ensures r.Success? ==> (r.value.2.None? <==> Get(j.members, "in_reply_to_user_id") == JNull)
    ensures r.Success? ==> (r.value.3.None? <==> Get(j.members, "keyword") == JNull)
  {
    var id :- StrAt(j, "id");
    var inReplyToStatusId :- OptStrAt(j, "in_reply_to_status_id");
    var inReplyToUserId :- OptStrAt(j, "in_reply_to_user_id");
    var keyword :- OptStrAt(j, "keyword");
    Success((id, inReplyToStatusId, inReplyToUserId, keyword))
  }

  /** And, after the replies, the source, the target, the text and the user. */
  function StatusTail(j: Json): (r: Result<(string, Option<Target>, Option<string>, User), Exception>)
    ensures r.Success? ==> j.JObj? && Find(j.members, "source").Some? && Find(j.members, "user").Some?
    ensures r.Success? ==> (r.value.1.None? <==> Get(j.members, "target") == JNull)
    ensures r.Success? ==> (r.value.2.None? <==> Get(j.members, "text") == JNull)
  {
    var source :- StrAt(j, "source");
    var target :- TargetAt(j);
    var text :- OptStrAt(j, "text");
    var user :- UserAt(j);
    Success((source, target, text, user))
  }

  /** `Status(d)`: the sixteen fields in the order the constructor reads
      them; replies, the target and the user are built recursively. */
  function BuildStatus(j: Json): (r: Result<Status, Exception>)
    ensures r.Success? ==> j.JObj? && Find(j.members, "link").Some? && Find(j.members, "created_at").Some?
    ensures r.Success? ==> Find(j.members, "favorited").Some? && Find(j.members, "id").Some?
    ensures r.Success? ==> Find(j.members, "source").Some? && Find(j.members, "user").Some?
    ensures !j.JObj? ==> r.Failure? && r.error.Builtin? && r.error.kind == TypeError
    ensures j.JObj? && Find(j.members, "link").None? ==> r == Failure(MissingKey("link"))
    decreases Size(j), 1
  {
    var head :- StatusHead(j);
    var bodies :- StatusBodies(j);
    var reference :- StatusReference(j);
    var replies :- RepliesAt(j);
    var tail :- StatusTail(j);
    Success(Status(head.0, head.1, head.2, bodies.0, bodies.1, bodies.2, bodies.3,
                   reference.0, reference.1, reference.2, reference.3, replies,
                   tail.0, tail.1, tail.2, tail.3))
  }

  // ---------------------------------------------------------------------
  // Writing records as the API does, and reading them back

  /** A count as the API writes it: a decimal str. */
  function CountJson(n: int): Json {
    JStr(IntToDecimal(n))
  }

  function OptJson(o: Option<string>): Json {
    match o
    case None => JNull
    case Some(s) => JStr(s)
  }

  function StrListJson(words: seq<string>): Json {
    JList(seq(|words|, k requires 0 <= k < |words| => JStr(words[k])))
  }

  function UserJson(u: User): Json {
    JObj([("followers_count", CountJson(u.followersCount)), ("name", JStr(u.name)), ("id", JStr(u.id)),
          ("profile_image_url", JStr(u.profileImageUrl)), ("screen_name", JStr(u.screenName)),
          ("url", JStr(u.url))])
  }

  function TargetJson(t: Target): Json {
    JObj([("title", JStr(t.title)), ("word", JStr(t.word)), ("url_name", OptJson(t.urlName))])
  }

  function KeywordJson(k: Keyword): Json {
    JObj([("entry_count", CountJson(k.entryCount)), ("followers_count", CountJson(k.followersCount)),
          ("link", JStr(k.link)),
          ("related_keywords", match k.relatedKeywords case None => JNull case Some(ws) => StrListJson(ws)),
          ("title", JStr(k.title)), ("word", JStr(k.word)), ("url_name", OptJson(k.urlName))])
  }

  lemma {:induction false} OptStrAtJson(j: Json, key: string, o: Option<string>)
    requires j.JObj? && Get(j.members, key) == OptJson(o)
    ensures OptStrAt(j, key) == Success(o)
  {
  }

  lemma {:induction false} CountAt(j: Json, key: string, n: int)
    requires j.JObj? && Find(j.members, key) == Some(CountJson(n))
    ensures IntAt(j, key) == Success(n)
  {
    IntOfStrOf(n);
  }

  /** `User` reads back every user written as the API writes it. */
  lemma {:induction false} BuildUserJson(u: User)
    ensures BuildUser(UserJson(u)) == Success(u)
  {
    var j := UserJson(u);
    var m := j.members;
    FindAt(m, 0);
    FindAt(m, 1);
    FindAt(m, 2);
    FindAt(m, 3);
    FindAt(m, 4);
    FindAt(m, 5);
    CountAt(j, "followers_count", u.followersCount);
  }

  /** `Target` reads back every target. */
  lemma {:induction false} BuildTargetJson(t: Target)
    ensures BuildTarget(TargetJson(t)) == Success(t)
  {
    var j := TargetJson(t);
    var m := j.members;
    FindAt(m, 0);
    FindAt(m, 1);
    FindAt(m, 2);
    OptStrAtJson(j, "url_name", t.urlName);
  }

  /** `list_of(str)` reads back every list of strs. */
  lemma {:induction false} StrListRoundTrip(words: seq<string>)
    ensures StrList(StrListJson(words)) == Success(words)
  {
    var xs := StrListJson(words).items;
    var r := MapEach(StrOf, xs);
    assert r.Success? && |r.value| == |words|;
    assert r.value == words;
  }

  lemma {:induction false} StrAtJson(j: Json, key: string, text: string)
    requires j.JObj? && Find(j.members, key) == Some(JStr(text))
    ensures StrAt(j, key) == Success(text)
  {
  }

  lemma {:induction false} OptStrListAtJson(j: Json, key: string, o: Option<seq<string>>)
    requires j.JObj?
    requires Get(j.members, key) == match o case None => JNull case Some(ws) => StrListJson(ws)
    ensures OptStrListAt(j, key) == Success(o)
  {
    if o.Some? {
      StrListRoundTrip(o.value);
    }
  }

  /** `Keyword` reads back every keyword. */
  lemma {:induction false} BuildKeywordJson(k: Keyword)
    ensures BuildKeyword(KeywordJson(k)) == Success(k)
  {
    var j := KeywordJson(k);
    var m := j.members;
    FindAt(m, 0);
    FindAt(m, 1);
    FindAt(m, 2);
    FindAt(m, 3);
    FindAt(m, 4);
    FindAt(m, 5);
    FindAt(m, 6);
    CountAt(j, "entry_count", k.entryCount);
    CountAt(j, "followers_count", k.followersCount);
    StrAtJson(j, "link", k.link);
    OptStrListAtJson(j, "related_keywords", k.relatedKeywords);
    StrAtJson(j, "title", k.title);
    StrAtJson(j, "word", k.word);
    OptStrAtJson(j, "url_name", k.urlName);
  }

  /** Fraction digits for a microsecond count: none for zero, else six. */
  function FracDigits(us: int): (frac: string)
    requires 0 <= us < 1_000_000
    ensures FractionOf(frac, us)
  {
    if us == 0 then []
    else
      NatDigitsLength(us, 6, 1_000_000);
      assert Padded(us, 6) + Zeros(0) == Padded(us, 6);
      Padded(us, 6)
  }

  /** A timestamp as the API writes it. */
  function TimestampJson(dt: DateTime): Json {
    JStr(Rfc3339(dt, FracDigits(dt.microsecond)))
  }

  /** The `i`-th key of an entry, in the order the API writes them. */
  function StatusField(i: nat): string
    requires i < 16
  {
    if i == 0 then "link"
    else if i == 1 then "created_at"
    else if i == 2 then "favorited"
    else if i == 3 then "haiku_text"
    else if i == 4 then "html"
    else if i == 5 then "html_touch"
    else if i == 6 then "html_mobile"
    else if i == 7 then "id"
    else if i == 8 then "in_reply_to_status_id"
    else if i == 9 then "in_reply_to_user_id"
    else if i == 10 then "keyword"
    else if i == 11 then "replies"
    else if i == 12 then "source"
    else if i == 13 then "target"
    else if i == 14 then "text"
    else "user"
  }

  lemma {:induction false} StatusFieldsDistinct()
    ensures forall i, k :: 0 <= i < k < 16 ==> StatusField(i) != StatusField(k)
  {
  }

  function TargetOrNone(t: Option<Target>): Json {
    match t
    case None => JNull
    case Some(target) => TargetJson(target)
  }

  /** The value written under `StatusField(i)`. */
  function StatusValue(s: Status, i: nat): Json
    requires i < 16
    decreases s, 1
  {
    if i == 0 then JStr(s.link)
    else if i == 1 then TimestampJson(s.createdAt)
    else if i == 2 then CountJson(s.favorited)
    else if i == 3 then OptJson(s.haikuText)
    else if i == 4 then OptJson(s.html)
    else if i == 5 then OptJson(s.htmlTouch)
    else if i == 6 then OptJson(s.htmlMobile)
    else if i == 7 then JStr(s.id)
    else if i == 8 then OptJson(s.inReplyToStatusId)
    else if i == 9 then OptJson(s.inReplyToUserId)
    else if i == 10 then OptJson(s.keyword)
    else if i == 11 then RepliesJson(s)
    else if i == 12 then JStr(s.source)
    else if i == 13 then TargetOrNone(s.target)
    else if i == 14 then OptJson(s.text)
    else UserJson(s.user)
  }

  /** The replies of an entry as the API writes them. */
  function RepliesJson(s: Status): Json
    decreases s, 0
  {
    match s.replies
    case NoReplies => JNull
    case Replies(rs) => JList(seq(|rs|, k requires 0 <= k < |rs| => assert rs[k] in rs; StatusJson(rs[k])))
  }

  /** An entry as the API writes it, its replies included. */
  function StatusJson(s: Status): Json
    decreases s, 2
  {
    StatusFieldsDistinct();
    JObj(DictOf(seq(16, i requires 0 <= i < 16 => StatusField(i)),
                seq(16, i requires 0 <= i < 16 => StatusValue(s, i))))
  }

  /** Each field of a written entry is found under its key. */
  lemma {:induction false} StatusFind(s: Status, i: nat)
    requires i < 16
    ensures Find(StatusJson(s).members, StatusField(i)) == Some(StatusValue(s, i))
  {
    var keys := seq(16, i requires 0 <= i < 16 => StatusField(i));
    assert keys[i] == StatusField(i);
    FindAt(StatusJson(s).members, i);
  }

  /** The keys and values of the fields of a written entry. */
  lemma {:induction false} StatusEntriesHead(s: Status)
    ensures StatusField(0) == "link" && StatusValue(s, 0) == JStr(s.link)
    ensures StatusField(1) == "created_at" && StatusValue(s, 1) == TimestampJson(s.createdAt)
    ensures StatusField(2) == "favorited" && StatusValue(s, 2) == CountJson(s.favorited)
    ensures StatusField(3) == "haiku_text" && StatusValue(s, 3) == OptJson(s.haikuText)
  {
  }

  lemma {:induction false} StatusEntriesBodies(s: Status)
    ensures StatusField(4) == "html" && StatusValue(s, 4) == OptJson(s.html)
    ensures StatusField(5) == "html_touch" && StatusValue(s, 5) == OptJson(s.htmlTouch)
    ensures StatusField(6) == "html_mobile" && StatusValue(s, 6) == OptJson(s.htmlMobile)
    ensures StatusField(7) == "id" && StatusValue(s, 7) == JStr(s.id)
  {
  }

  lemma {:induction false} StatusEntriesReference(s: Status)
    ensures StatusField(8) == "in_reply_to_status_id" && StatusValue(s, 8) == OptJson(s.inReplyToStatusId)
    ensures StatusField(9) == "in_reply_to_user_id" && StatusValue(s, 9) == OptJson(s.inReplyToUserId)
    ensures StatusField(10) == "keyword" && StatusValue(s, 10) == OptJson(s.keyword)
    ensures StatusField(11) == "replies" && StatusValue(s, 11) == RepliesJson(s)
  {
  }

  lemma {:induction false} StatusEntriesTail(s: Status)
    ensures StatusField(12) == "source" && StatusValue(s, 12) == JStr(s.source)
    ensures StatusField(13) == "target" && StatusValue(s, 13) == TargetOrNone(s.target)
    ensures StatusField(14) == "text" && StatusValue(s, 14) == OptJson(s.text)
    ensures StatusField(15) == "user" && StatusValue(s, 15) == UserJson(s.user)
  {
  }

  /** Where a written entry keeps each field. */
  lemma {:induction false} StatusMembersHead(s: Status)
    ensures var m := StatusJson(s).members;
      && Find(m, "link") == Some(JStr(s.link))
      && Find(m, "created_at") == Some(TimestampJson(s.createdAt))
      && Find(m, "favorited") == Some(CountJson(s.favorited))
      && Find(m, "haiku_text") == Some(OptJson(s.haikuText))
  {
    StatusEntriesHead(s);
    StatusFind(s, 0);
    StatusFind(s, 1);
    StatusFind(s, 2);
    StatusFind(s, 3);
  }

  lemma {:induction false} StatusMembersBodies(s: Status)
    ensures var m := StatusJson(s).members;
      && Find(m, "html") == Some(OptJson(s.html))
      && Find(m, "html_touch") == Some(OptJson(s.htmlTouch))
      && Find(m, "html_mobile") == Some(OptJson(s.htmlMobile))
      && Find(m, "id") == Some(JStr(s.id))
  {
    StatusEntriesBodies(s);
    StatusFind(s, 4);
    StatusFind(s, 5);
    StatusFind(s, 6);
    StatusFind(s, 7);
  }

  lemma {:induction false} StatusMembersReference(s: Status)
    ensures var m := StatusJson(s).members;
      && Find(m, "in_reply_to_status_id") == Some(OptJson(s.inReplyToStatusId))
      && Find(m, "in_reply_to_user_id") == Some(OptJson(s.inReplyToUserId))
      && Find(m, "keyword") == Some(OptJson(s.keyword))
      && Find(m, "replies") == Some(RepliesJson(s))
  {
    StatusEntriesReference(s);
    StatusFind(s, 8);
    StatusFind(s, 9);
    StatusFind(s, 10);
    StatusFind(s, 11);
  }

  lemma {:induction false} StatusMembersTail(s: Status)
    ensures var m := StatusJson(s).members;
      && Find(m, "source") == Some(JStr(s.source))
      && Find(m, "target") == Some(TargetOrNone(s.target))
      && Find(m, "text") == Some(OptJson(s.text))
      && Find(m, "user") == Some(UserJson(s.user))
  {
    StatusEntriesTail(s);
    StatusFind(s, 12);
    StatusFind(s, 13);
    StatusFind(s, 14);
    StatusFind(s, 15);
  }

  lemma {:induction false} StatusHeadOf(j: Json, s: Status)
    requires j.JObj?
    requires Find(j.members, "link") == Some(JStr(s.link))
    requires Find(j.members, "created_at") == Some(TimestampJson(s.createdAt))
    requires Find(j.members, "favorited") == Some(CountJson(s.favorited))
    ensures StatusHead(j) == Success((s.link, s.createdAt, s.favorited))
  {
    ToDatetimeRfc3339(s.createdAt, FracDigits(s.createdAt.microsecond));
    CountAt(j, "favorited", s.favorited);
  }

  lemma {:induction false} StatusBodiesOf(j: Json, s: Status)
    requires j.JObj?
    requires Get(j.members, "haiku_text") == OptJson(s.haikuText)
    requires Get(j.members, "html") == OptJson(s.html)
    requires Get(j.members, "html_touch") == OptJson(s.htmlTouch)
    requires Get(j.members, "html_mobile") == OptJson(s.htmlMobile)
    ensures StatusBodies(j) == Success((s.haikuText, s.html, s.htmlTouch, s.htmlMobile))
  {
    OptStrAtJson(j, "haiku_text", s.haikuText);
    OptStrAtJson(j, "html", s.html);
    OptStrAtJson(j, "html_touch", s.htmlTouch);
    OptStrAtJson(j, "html_mobile", s.htmlMobile);
  }

  lemma {:induction false} StatusReferenceOf(j: Json, s: Status)
    requires j.JObj?
    requires Find(j.members, "id") == Some(JStr(s.id))
    requires Get(j.members, "in_reply_to_status_id") == OptJson(s.inReplyToStatusId)
    requires Get(j.members, "in_reply_to_user_id") == OptJson(s.inReplyToUserId)
    requires Get(j.members, "keyword") == OptJson(s.keyword)
    ensures StatusReference(j) == Success((s.id, s.inReplyToStatusId, s.inReplyToUserId, s.keyword))
  {
    OptStrAtJson(j, "in_reply_to_status_id", s.inReplyToStatusId);
    OptStrAtJson(j, "in_reply_to_user_id", s.inReplyToUserId);
    OptStrAtJson(j, "keyword", s.keyword);
  }

  lemma {:induction false} StatusTailOf(j: Json, s: Status)
    requires j.JObj?
    requires Find(j.members, "source") == Some(JStr(s.source))
    requires Get(j.members, "target") == TargetOrNone(s.target)
    requires Get(j.members, "text") == OptJson(s.text)
    requires Find(j.members, "user") == Some(UserJson(s.user))
    ensures StatusTail(j) == Success((s.source, s.target, s.text, s.user))
  {
    if s.target.Some? {
      BuildTargetJson(s.target.value);
    }
    OptStrAtJson(j, "text", s.text);
    BuildUserJson(s.user);
  }

  /** Each written reply is smaller than the entry and reads back as the
      reply it was written from. */
  lemma {:induction false} RepliesRead(s: Status, rs: seq<Status>)
    requires s.replies == Replies(rs)
    ensures var v := RepliesJson(s);
      && v.JList? && |v.items| == |rs|
      && forall k :: 0 <= k < |rs| ==> Size(v.items[k]) < Size(StatusJson(s)) && BuildStatus(v.items[k]) == Success(rs[k])
    decreases s, 0
  {
    var j := StatusJson(s);
    var v := RepliesJson(s);
    StatusMembersReference(s);
    forall k | 0 <= k < |rs|
      ensures Size(v.items[k]) < Size(j) && BuildStatus(v.items[k]) == Success(rs[k])
    {
      assert rs[k] in rs;
      assert v.items[k] == StatusJson(rs[k]);
      BuildStatusJson(rs[k]);
      SizeItem(v.items, k);
      FindSize(j.members, "replies");
    }
  }

  /** A dict without replies reads as none. */
  lemma {:induction false} RepliesAtNone(j: Json)
    requires j.JObj? && Get(j.members, "replies") == JNull
    ensures RepliesAt(j) == Success(NoReplies)
  {
  }

  /** A dict whose replies are a list of entries, each smaller than the dict
      and each read as the matching status, reads as those statuses. */
  lemma {:induction false} RepliesAtList(j: Json, rs: seq<Status>)
    requires j.JObj?
    requires var v := Get(j.members, "replies");
      && v.JList? && |v.items| == |rs|
      && forall k :: 0 <= k < |rs| ==> Size(v.items[k]) < Size(j) && BuildStatus(v.items[k]) == Success(rs[k])
    ensures RepliesAt(j) == Success(Replies(rs))
  {
    var v := Get(j.members, "replies");
    var g := e requires Size(e) < Size(j) => BuildStatus(e);
    var r := MapEach(g, v.items);
    assert r.Success? && |r.value| == |rs|;
    assert r.value == rs;
  }

  /** The replies of every entry read back, each one by the round trip of
      `Status` itself. */
  lemma {:induction false} RepliesAtJson(s: Status)
    ensures RepliesAt(StatusJson(s)) == Success(s.replies)
    decreases s, 1
  {
    StatusMembersReference(s);
    match s.replies
    case NoReplies =>
      RepliesAtNone(StatusJson(s));
    case Replies(rs) =>
      RepliesRead(s, rs);
      RepliesAtList(StatusJson(s), rs);
  }

  /** `Status` reads back every entry written as the API writes it, replies
      and all. */
  lemma {:induction false} BuildStatusJson(s: Status)
    ensures BuildStatus(StatusJson(s)) == Success(s)
    decreases s, 2
  {
    var j := StatusJson(s);
    StatusMembersHead(s);
    StatusMembersBodies(s);
    StatusMembersReference(s);
    StatusMembersTail(s);
    StatusHeadOf(j, s);
    StatusBodiesOf(j, s);
    StatusReferenceOf(j, s);
    RepliesAtJson(s);
    StatusTailOf(j, s);
  }
}
