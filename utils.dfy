/** haiker/utils.py: copying a dict without some keys, formatting an aware
    datetime in UTC, and turning request parameters into wire bytes. */
module Utils {
  import opened Wrappers
  import opened Text
  import opened Calendar
  import opened Exceptions

  // ---------------------------------------------------------------------
  // Dicts with str keys, in insertion order

  predicate KeysDistinct<V>(d: seq<(string, V)>) {
    forall i, j :: 0 <= i < j < |d| ==> d[i].0 != d[j].0
  }

  /** A Python dict with str keys: its entries in insertion order. */
  type Dict<V> = d: seq<(string, V)> | KeysDistinct(d) witness []

  /** The dict with the given keys, in order, mapped to the given values. */
  function DictOf<V>(keys: seq<string>, values: seq<V>): (d: Dict<V>)
    requires |keys| == |values|
    requires forall i, j :: 0 <= i < j < |keys| ==> keys[i] != keys[j]
    ensures |d| == |keys| && forall i {:trigger keys[i]} :: 0 <= i < |d| ==> d[i] == (keys[i], values[i])
  {
    seq(|keys|, i requires 0 <= i < |keys| => (keys[i], values[i]))
  }

  function KeySet<V(==,!new)>(d: seq<(string, V)>): set<string> {
    set p | p in d :: p.0
  }

  /** `removed_dict(dic, keys)`: a copy of `dic` without the entries whose key
      is in `keys`, the others unchanged and in their original order. */
  function RemovedDict<V(==,!new)>(dic: Dict<V>, keys: set<string>): (r: Dict<V>)
    ensures forall p :: p in r <==> p in dic && p.0 !in keys
    ensures KeySet(r) == KeySet(dic) - keys
    ensures |r| <= |dic|
  {
    if dic == [] then []
    else
      var rest := RemovedDict(dic[1..], keys);
      assert forall p :: p in dic[1..] ==> p.0 != dic[0].0 by {
        forall p | p in dic[1..] ensures p.0 != dic[0].0 {
          var j :| 0 <= j < |dic[1..]| && dic[1..][j] == p;
          assert dic[j + 1] == p;
        }
      }
      if dic[0].0 in keys then rest else [dic[0]] + rest
  }

  /** Every named argument whose name is not removed survives `removed_dict`
      with its value. */
  lemma {:induction false} RemovedDictKeeps<V(!new)>(keys: seq<string>, values: seq<V>, removed: set<string>)
    requires |keys| == |values|
    requires forall i, j :: 0 <= i < j < |keys| ==> keys[i] != keys[j]
    ensures forall i :: 0 <= i < |keys| && keys[i] !in removed ==>
      (keys[i], values[i]) in RemovedDict(DictOf(keys, values), removed)
  {
    var d := DictOf(keys, values);
    forall i | 0 <= i < |keys| && keys[i] !in removed
      ensures (keys[i], values[i]) in RemovedDict(d, removed)
    {
      assert d[i] == (keys[i], values[i]);
      assert d[i] in d;
    }
  }

  /** Removing no key, or only keys the dict does not have, copies it as is. */
  lemma {:induction false} RemovedDictNothing<V(!new)>(dic: Dict<V>, keys: set<string>)
    requires forall i :: 0 <= i < |dic| ==> dic[i].0 !in keys
    ensures RemovedDict(dic, keys) == dic
  {
    if dic != [] {
      var tail := dic[1..];
      assert forall i :: 0 <= i < |tail| ==> tail[i] == dic[i + 1];
      RemovedDictNothing(tail, keys);
      assert [dic[0]] + tail == dic;
    }
  }

  // ---------------------------------------------------------------------
  // strftime

  const WeekdayAbbreviations: seq<string> := ["Mon", "Tue", "Wed", "Thu", "Fri", "Sat", "Sun"]

  const MonthNames: seq<string> := ["January", "February", "March", "April", "May", "June",
                                    "July", "August", "September", "October", "November", "December"]

  /** The date format `serialize` uses unless told otherwise,
      `%a, %d %B %Y %H:%M:%S GMT`, piece by piece. */
  function DefaultDateFormat(): string {
    "%a" + ", " + "%d" + " " + "%B" + " " + "%Y" + " " + "%H" + ":" + "%M" + ":" + "%S" + " GMT"
  }

  /** The texts the `strftime` directives `%a %d %B %m %Y %H %M %S` print. */
  datatype FieldTexts = FieldTexts(weekdayName: string, day: string, monthName: string, month: string,
                                   year: string, hour: string, minute: string, second: string)

  /** The directive texts of `date` in the C locale: English names, numbers
      zero-padded to two digits and the year to four. */
  function TextsOf(date: DateTime): (texts: FieldTexts)
    ensures |texts.day| == |texts.month| == |texts.hour| == |texts.minute| == |texts.second| == 2
    ensures |texts.year| == 4
  {
    NatDigitsLength(date.day, 2, 100);
    NatDigitsLength(date.month, 2, 100);
    NatDigitsLength(date.year, 4, 10000);
    NatDigitsLength(date.hour, 2, 100);
    NatDigitsLength(date.minute, 2, 100);
    NatDigitsLength(date.second, 2, 100);
    FieldTexts(WeekdayAbbreviations[Weekday(date.DateOf())], Padded(date.day, 2),
               MonthNames[date.month - 1], Padded(date.month, 2), Padded(date.year, 4),
               Padded(date.hour, 2), Padded(date.minute, 2), Padded(date.second, 2))
  }

  predicate IsDirectiveCode(c: char) {
    c == 'a' || c == 'B' || c == 'd' || c == 'm' || c == 'Y' || c == 'H' || c == 'M' || c == 'S' || c == '%'
  }

  /** The text one `%` directive prints. */
  function Directive(texts: FieldTexts, code: char): string
    requires IsDirectiveCode(code)
  {
    match code
    case 'a' => texts.weekdayName
    case 'B' => texts.monthName
    case 'd' => texts.day
    case 'm' => texts.month
    case 'Y' => texts.year
    case 'H' => texts.hour
    case 'M' => texts.minute
    case 'S' => texts.second
    case '%' => "%"
  }

  /** The output of `strftime`: text outside directives is copied, each
      directive is replaced by its text; a directive other than the ones
      above (locale or platform dependent) is not modelled. */
  function Render(texts: FieldTexts, fmt: string): (r: Result<string, Exception>)
    ensures r.Failure? ==> r.error.Builtin? && r.error.kind == Unmodelled
  {
    if fmt == [] then Success([])
    else if fmt[0] == '%' then
      if |fmt| < 2 || !IsDirectiveCode(fmt[1]) then Failure(Builtin(Unmodelled, fmt))
      else
        var rest :- Render(texts, fmt[2..]);
        Success(Directive(texts, fmt[1]) + rest)
    else
      var rest :- Render(texts, fmt[1..]);
      Success([fmt[0]] + rest)
  }

  /** `date.strftime(fmt)`. */
  function Format(date: DateTime, fmt: string): (r: Result<string, Exception>)
    ensures r.Failure? ==> r.error.Builtin? && r.error.kind == Unmodelled
  {
    Render(TextsOf(date), fmt)
  }

  /** Rendering a concatenation renders each part. */
  lemma {:induction false} RenderAppend(texts: FieldTexts, a: string, b: string)
    requires Render(texts, a).Success? && Render(texts, b).Success?
    ensures Render(texts, a + b) == Success(Render(texts, a).value + Render(texts, b).value)
    decreases |a|, 1
  {
    if a == [] {
      assert a + b == b;
      assert Render(texts, a).value == [];
      assert [] + Render(texts, b).value == Render(texts, b).value;
    } else if a[0] == '%' {
      RenderAppendDirective(texts, a, b);
    } else {
      RenderAppendPlain(texts, a, b);
    }
  }

  lemma {:induction false} RenderAppendDirective(texts: FieldTexts, a: string, b: string)
    requires Render(texts, a).Success? && Render(texts, b).Success?
    requires a != [] && a[0] == '%'
    ensures Render(texts, a + b) == Success(Render(texts, a).value + Render(texts, b).value)
    decreases |a|, 0
  {
    var ab := a + b;
    assert |a| >= 2 && IsDirectiveCode(a[1]) && Render(texts, a[2..]).Success?;
    assert ab[0] == '%' && ab[1] == a[1] && ab[2..] == a[2..] + b;
    RenderAppend(texts, a[2..], b);
    DirectiveStep(texts, ab);
    Associative(Directive(texts, a[1]), Render(texts, a[2..]).value, Render(texts, b).value);
  }

  lemma {:induction false} RenderAppendPlain(texts: FieldTexts, a: string, b: string)
    requires Render(texts, a).Success? && Render(texts, b).Success?
    requires a != [] && a[0] != '%'
    ensures Render(texts, a + b) == Success(Render(texts, a).value + Render(texts, b).value)
    decreases |a|, 0
  {
    var ab := a + b;
    assert Render(texts, a[1..]).Success?;
    assert ab[0] == a[0] && ab[1..] == a[1..] + b;
    RenderAppend(texts, a[1..], b);
    PlainStep(texts, ab);
    Associative([a[0]], Render(texts, a[1..]).value, Render(texts, b).value);
  }

  lemma {:induction false} DirectiveStep(texts: FieldTexts, s: string)
    requires |s| >= 2 && s[0] == '%' && IsDirectiveCode(s[1]) && Render(texts, s[2..]).Success?
    ensures Render(texts, s) == Success(Directive(texts, s[1]) + Render(texts, s[2..]).value)
  {
  }

  lemma {:induction false} PlainStep(texts: FieldTexts, s: string)
    requires s != [] && s[0] != '%' && Render(texts, s[1..]).Success?
    ensures Render(texts, s) == Success([s[0]] + Render(texts, s[1..]).value)
  {
  }

  lemma {:induction false} Associative(x: string, y: string, z: string)
    ensures x + (y + z) == (x + y) + z
  {
  }

  /** Text without `%` is a format that prints itself. */
  lemma {:induction false} RenderPlain(texts: FieldTexts, text: string)
    requires '%' !in text
    ensures Render(texts, text) == Success(text)
  {
    if text != [] {
      assert text[0] != '%';
      RenderPlain(texts, text[1..]);
      assert [text[0]] + text[1..] == text;
    }
  }

  /** Appending plain text to a format appends it to the output. */
  lemma {:induction false} RenderText(texts: FieldTexts, prefix: string, text: string)
    requires Render(texts, prefix).Success? && '%' !in text
    ensures Render(texts, prefix + text) == Success(Render(texts, prefix).value + text)
  {
    RenderPlain(texts, text);
    assert Render(texts, text).value == text;
    RenderAppend(texts, prefix, text);
  }

  /** Appending a directive to a format appends its text to the output. */
  lemma {:induction false} RenderField(texts: FieldTexts, prefix: string, code: char)
    requires Render(texts, prefix).Success? && IsDirectiveCode(code)
    ensures Render(texts, prefix + ['%', code]) == Success(Render(texts, prefix).value + Directive(texts, code))
  {
    var f := ['%', code];
    assert f[0] == '%' && f[1] == code && f[2..] == [];
    assert Render(texts, f[2..]) == Success([]);
    assert Render(texts, f) == Success(Directive(texts, code) + []);
    assert Directive(texts, code) + [] == Directive(texts, code);
    RenderAppend(texts, prefix, f);
  }

  /** The default format prints the weekday's abbreviation, the day, the
      month's name, the year and the time, then `GMT`. */
  lemma {:induction false} DefaultFormatTexts(texts: FieldTexts)
    ensures Render(texts, DefaultDateFormat()) == Success(
      texts.weekdayName + ", " + texts.day + " " + texts.monthName + " " + texts.year + " " +
      texts.hour + ":" + texts.minute + ":" + texts.second + " GMT")
  {
    var f := "%a";
    assert f[0] == '%' && f[1] == 'a' && f[2..] == [];
    assert Render(texts, f) == Success(texts.weekdayName + []);
    assert texts.weekdayName + [] == texts.weekdayName;
    RenderText(texts, f, ", ");  f := f + ", ";
    RenderField(texts, f, 'd');  f := f + "%d";
    RenderText(texts, f, " ");   f := f + " ";
    RenderField(texts, f, 'B');  f := f + "%B";
    RenderText(texts, f, " ");   f := f + " ";
    RenderField(texts, f, 'Y');  f := f + "%Y";
    RenderText(texts, f, " ");   f := f + " ";
    RenderField(texts, f, 'H');  f := f + "%H";
    RenderText(texts, f, ":");   f := f + ":";
    RenderField(texts, f, 'M');  f := f + "%M";
    RenderText(texts, f, ":");   f := f + ":";
    RenderField(texts, f, 'S');  f := f + "%S";
    RenderText(texts, f, " GMT");
    assert DefaultDateFormat() == f + " GMT";
  }

  /** `strftime(date, date_format)` for an aware datetime: the same instant in
      UTC, formatted; OverflowError when UTC leaves years 1..9999. */
  function Strftime(date: DateTime, dateFormat: string): (r: Result<string, Exception>)
    ensures ToUtc(date).None? ==> r == Failure(Builtin(OverflowError, "date value out of range"))
    ensures ToUtc(date).Some? ==> r == Format(ToUtc(date).value, dateFormat)
  {
    match ToUtc(date)
    case Some(u) => Format(u, dateFormat)
    case None => Failure(Builtin(OverflowError, "date value out of range"))
  }

  /** With the default format `strftime` fails only when the instant cannot
      be written in UTC. */
  lemma {:induction false} StrftimeDefault(date: DateTime)
    ensures Strftime(date, DefaultDateFormat()).Success? <==> ToUtc(date).Some?
  {
    if ToUtc(date).Some? {
      DefaultFormatTexts(TextsOf(ToUtc(date).value));
    }
  }

  /** The same instant gives the same text whatever offset it is written in. */
  lemma {:induction false} StrftimeSameInstant(u: DateTime, offset: int, dateFormat: string)
    requires u.offset == 0
    requires -MinutesPerDay < offset < MinutesPerDay
    requires AtOffset(u, offset).Some?
    ensures Strftime(AtOffset(u, offset).value, dateFormat) == Strftime(u, dateFormat)
  {
    ToUtcAtOffset(u, offset);
  }

  /** `%Y-%m-%d %H:%M:%S` prints the year, month and day, then the time. */
  lemma {:induction false} NumericFormatTexts(texts: FieldTexts)
    ensures Render(texts, "%Y" + "-" + "%m" + "-" + "%d" + " " + "%H" + ":" + "%M" + ":" + "%S") == Success(
      texts.year + "-" + texts.month + "-" + texts.day + " " + texts.hour + ":" + texts.minute + ":" + texts.second)
  {
    var f := "%Y";
    assert f[0] == '%' && f[1] == 'Y' && f[2..] == [];
    assert Render(texts, f) == Success(texts.year + []);
    assert texts.year + [] == texts.year;
    RenderText(texts, f, "-");   f := f + "-";
    RenderField(texts, f, 'm');  f := f + "%m";
    RenderText(texts, f, "-");   f := f + "-";
    RenderField(texts, f, 'd');  f := f + "%d";
    RenderText(texts, f, " ");   f := f + " ";
    RenderField(texts, f, 'H');  f := f + "%H";
    RenderText(texts, f, ":");   f := f + ":";
    RenderField(texts, f, 'M');  f := f + "%M";
    RenderText(texts, f, ":");   f := f + ":";
    RenderField(texts, f, 'S');
  }

  /** The directive texts of midnight, 2000-01-01 UTC: a Saturday. */
  lemma {:induction false} MillenniumTexts()
    ensures TextsOf(Civil(2000, 1, 1, 0, 0, 0, 0, 0)) == FieldTexts("Sat", "01", "January", "01", "2000", "00", "00", "00")
  {
    var d := Date(2000, 1, 1);
    assert Ordinal(d) == 730120;
    assert Weekday(d) == 5;
    assert Padded(1, 2) == "01";
    assert Padded(0, 2) == "00";
    assert Padded(2000, 4) == "2000";
  }

  lemma {:induction false} MillenniumDefaultPieces(utc: DateTime, fmt: string)
    requires utc == Civil(2000, 1, 1, 0, 0, 0, 0, 0)
    requires fmt == DefaultDateFormat()
    ensures Strftime(utc, fmt) ==
      Success("Sat" + ", " + "01" + " " + "January" + " " + "2000" + " " + "00" + ":" + "00" + ":" + "00" + " GMT")
  {
    MillenniumTexts();
    var texts := TextsOf(utc);
    DefaultFormatTexts(texts);
    assert ToUtc(utc) == Some(utc);
  }

  lemma {:induction false} MillenniumDefaultText()
    ensures "Sat" + ", " + "01" + " " + "January" + " " + "2000" + " " + "00" + ":" + "00" + ":" + "00" + " GMT"
         == "Sat, 01 January 2000 00:00:00 GMT"
  {
  }

  /** With the default format, midnight of 2000-01-01 UTC prints as a Saturday. */
  lemma {:induction false} StrftimeMillenniumDefault(utc: DateTime, fmt: string)
    requires utc == Civil(2000, 1, 1, 0, 0, 0, 0, 0)
    requires fmt == DefaultDateFormat()
    ensures Strftime(utc, fmt) == Success("Sat, 01 January 2000 00:00:00 GMT")
  {
    MillenniumDefaultPieces(utc, fmt);
    MillenniumDefaultText();
  }

  lemma {:induction false} MillenniumNumericPieces(utc: DateTime, numeric: string)
    requires utc == Civil(2000, 1, 1, 0, 0, 0, 0, 0)
    requires numeric == "%Y" + "-" + "%m" + "-" + "%d" + " " + "%H" + ":" + "%M" + ":" + "%S"
    ensures Strftime(utc, numeric) == Success("2000" + "-" + "01" + "-" + "01" + " " + "00" + ":" + "00" + ":" + "00")
  {
    MillenniumTexts();
    NumericFormatTexts(TextsOf(utc));
    assert ToUtc(utc) == Some(utc);
  }

  lemma {:induction false} MillenniumNumericText()
    ensures "2000" + "-" + "01" + "-" + "01" + " " + "00" + ":" + "00" + ":" + "00" == "2000-01-01 00:00:00"
  {
  }

  /** Midnight of 2000-01-01 in UTC prints as `2000-01-01 00:00:00`. */
  lemma {:induction false} StrftimeMillenniumNumeric(utc: DateTime, numeric: string)
    requires utc == Civil(2000, 1, 1, 0, 0, 0, 0, 0)
    requires numeric == "%Y" + "-" + "%m" + "-" + "%d" + " " + "%H" + ":" + "%M" + ":" + "%S"
    ensures Strftime(utc, numeric) == Success("2000-01-01 00:00:00")
  {
    MillenniumNumericPieces(utc, numeric);
    MillenniumNumericText();
  }

  /** The same instant at +09:00 (09:00 in Japan) prints as the UTC midnight. */
  lemma {:induction false} StrftimeMillenniumJapan(utc: DateTime, numeric: string)
    requires utc == Civil(2000, 1, 1, 0, 0, 0, 0, 0)
    requires numeric == "%Y" + "-" + "%m" + "-" + "%d" + " " + "%H" + ":" + "%M" + ":" + "%S"
    ensures AtOffset(utc, 540) == Some(Civil(2000, 1, 1, 9, 0, 0, 0, 540))
    ensures Strftime(AtOffset(utc, 540).value, numeric) == Success("2000-01-01 00:00:00")
  {
    StrftimeMillenniumNumeric(utc, numeric);
    StrftimeSameInstant(utc, 540, numeric);
  }

  // ---------------------------------------------------------------------
  // serialize

  /** A parameter value: None, bool, int, aware datetime, str, bytes, a
      sequence of values, or a value of any other type (named by its type). */
  datatype Value =
    | VNone
    | VBool(b: bool)
    | VInt(i: int)
    | VDateTime(dt: DateTime)
    | VStr(s: string)
    | VBytes(bytes: Bytes)
    | VSeq(items: seq<Value>)
    | VOther(typeName: string)

  /** The values `serialize` accepts: no value of an unsupported type anywhere,
      and every datetime expressible in UTC. */
  predicate Serializable(v: Value) {
    match v
    case VOther(_) => false
    case VDateTime(dt) => ToUtc(dt).Some?
    case VSeq(items) => forall i :: 0 <= i < |items| ==> Serializable(items[i])
    case _ => true
  }

  function Width(v: Value): nat {
    if v.VSeq? then |v.items| + 1 else 0
  }

  /** `serialize(obj)` with the default charset and date format: None stays
      None, a bool or int becomes the UTF-8 of its decimal `int` text, a
      datetime the UTF-8 of its UTC text, a str its UTF-8, bytes themselves,
      a sequence the comma-joined serialisation of its elements; anything
      else raises TypeError. */
  function Serialize(obj: Value): (r: Result<Option<Bytes>, Exception>)
    ensures r.Success? <==> Serializable(obj)
    ensures r.Success? ==> (r.value.None? <==> obj.VNone?)
    ensures r.Failure? ==> r.error.Builtin? && r.error.kind in {TypeError, OverflowError}
    decreases obj, Width(obj)
  {
    match obj
    case VNone => Success(None)
    case VBool(b) => Success(Some(Utf8(IntToDecimal(if b then 1 else 0))))
    case VInt(i) => Success(Some(Utf8(IntToDecimal(i))))
    case VDateTime(dt) =>
      StrftimeDefault(dt);
      var text :- Strftime(dt, DefaultDateFormat());
      Success(Some(Utf8(text)))
    case VStr(s) => Success(Some(Utf8(s)))
    case VBytes(b) => Success(Some(b))
    case VSeq(items) =>
      var fields :- SerializeFields(items, 0);
      Success(Some(Join(fields, Comma)))
    case VOther(name) => Failure(Builtin(TypeError, name + " is an unsupported type"))
  }

  /** The fields for `items[i..]`: a None element gives an empty field, any
      other element its serialisation; the first failure is raised. */
  function SerializeFields(items: seq<Value>, i: nat): (r: Result<seq<Bytes>, Exception>)
    requires i <= |items|
    ensures r.Success? <==> forall j :: i <= j < |items| ==> Serializable(items[j])
    ensures r.Success? ==> |r.value| == |items| - i
    ensures r.Failure? ==> r.error.Builtin? && r.error.kind in {TypeError, OverflowError}
    decreases VSeq(items), |items| - i
  {
    if i == |items| then Success([])
    else
      var first :- if items[i].VNone? then Success(Some([])) else Serialize(items[i]);
      var rest :- SerializeFields(items, i + 1);
      Success([first.value] + rest)
  }

  /** The field one element of a sequence contributes. */
  function Field(item: Value): Bytes
    requires Serializable(item)
  {
    if item.VNone? then [] else Serialize(item).value.value
  }

  /** The fields of a sequence of serialisable values. */
  function Fields(items: seq<Value>): (r: seq<Bytes>)
    requires forall j :: 0 <= j < |items| ==> Serializable(items[j])
    ensures |r| == |items|
    ensures forall j :: 0 <= j < |items| ==> r[j] == Field(items[j])
  {
    seq(|items|, j requires 0 <= j < |items| => Field(items[j]))
  }

  lemma {:induction false} SerializeFieldsAre(items: seq<Value>, i: nat)
    requires i <= |items|
    requires forall j :: i <= j < |items| ==> Serializable(items[j])
    ensures SerializeFields(items, i) == Success(Fields(items[i..]))
    decreases |items| - i
  {
    if i < |items| {
      SerializeFieldsAre(items, i + 1);
      SerializeFieldsStep(items, i);
      FieldsCons(items[i..]);
      assert items[i..][1..] == items[i + 1..];
    } else {
      assert Fields(items[i..]) == [];
    }
  }

  lemma {:induction false} SerializeFieldsStep(items: seq<Value>, i: nat)
    requires i < |items|
    requires forall j :: i <= j < |items| ==> Serializable(items[j])
    ensures SerializeFields(items, i) == Success([Field(items[i])] + SerializeFields(items, i + 1).value)
  {
    var first := if items[i].VNone? then Success(Some([])) else Serialize(items[i]);
    assert first == Success(Some(Field(items[i])));
  }

  lemma {:induction false} FieldsCons(items: seq<Value>)
    requires items != []
    requires forall j :: 0 <= j < |items| ==> Serializable(items[j])
    ensures Fields(items) == [Field(items[0])] + Fields(items[1..])
  {
    var l := Fields(items);
    var r := [Field(items[0])] + Fields(items[1..]);
    forall k | 0 <= k < |l|
      ensures l[k] == r[k]
    {
      if k > 0 {
        assert items[1..][k - 1] == items[k];
      }
    }
  }

  /** A sequence serialises to its elements' fields joined with `,`; a None
      element is an empty field, not an omission. */
  lemma {:induction false} SerializeSeq(items: seq<Value>)
    requires forall j :: 0 <= j < |items| ==> Serializable(items[j])
    ensures Serialize(VSeq(items)) == Success(Some(Join(Fields(items), Comma)))
  {
    SerializeFieldsAre(items, 0);
    assert items[0..] == items;
  }

  /** When no element's bytes hold a comma, splitting the serialised sequence
      on `,` recovers the per-element fields (a non-empty sequence: the empty
      sequence gives `b''`, which splits into one empty field). */
  lemma {:induction false} SerializeSeqSplit(items: seq<Value>)
    requires |items| >= 1
    requires forall j :: 0 <= j < |items| ==> Serializable(items[j])
    requires forall j :: 0 <= j < |items| ==> Comma !in Field(items[j])
    ensures Split(Serialize(VSeq(items)).value.value, Comma) == Fields(items)
  {
    SerializeSeq(items);
    SplitJoin(Fields(items), Comma);
  }

  /** A str is one field however many characters or commas it holds: it is
      encoded whole, never iterated into a comma list. */
  lemma {:induction false} SerializeStrWhole(s: string)
    ensures Serialize(VStr(s)) == Success(Some(Utf8(s)))
    ensures ',' !in s ==> Split(Serialize(VStr(s)).value.value, Comma) == [Utf8(s)]
  {
    if ',' !in s {
      Utf8Comma(s);
      SplitJoin([Utf8(s)], Comma);
    }
  }

  /** An int's wire bytes decode to its decimal text, which reads back as the
      int; a bool is sent as its int, `1` or `0`. */
  lemma {:induction false} SerializeIntRoundTrip(i: int)
    ensures Serialize(VInt(i)).Success? && Serialize(VInt(i)).value.Some?
    ensures DecodeUtf8(Serialize(VInt(i)).value.value) == Some(IntToDecimal(i))
    ensures ParseInt(IntToDecimal(i)) == Some(i)
    ensures Serialize(VBool(true)) == Serialize(VInt(1)) && Serialize(VBool(false)) == Serialize(VInt(0))
  {
    Utf8RoundTrip(IntToDecimal(i));
    IntDecimalRoundTrip(i);
  }

  /** The empty sequence and a sequence holding one None both serialise to `b''`. */
  lemma {:induction false} SerializeEmptySeq()
    ensures Serialize(VSeq([])) == Success(Some([]))
    ensures Serialize(VSeq([VNone])) == Success(Some([]))
  {
    SerializeSeq([]);
    SerializeSeq([VNone]);
  }

  /** Bytes are already wire bytes: they are sent unchanged. */
  lemma {:induction false} SerializeBytesUnchanged(b: Bytes)
    ensures Serialize(VBytes(b)) == Success(Some(b))
  {
  }

  /** A datetime is sent as the UTF-8 of its UTC instant in the default
      format; one whose UTC conversion overflows raises OverflowError. */
  lemma {:induction false} SerializeDateTime(dt: DateTime)
    ensures ToUtc(dt).Some? ==> Strftime(dt, DefaultDateFormat()).Success?
    ensures ToUtc(dt).Some? ==> Serialize(VDateTime(dt)) == Success(Some(Utf8(Strftime(dt, DefaultDateFormat()).value)))
    ensures ToUtc(dt).None? ==> Serialize(VDateTime(dt)) == Failure(Builtin(OverflowError, "date value out of range"))
  {
    StrftimeDefault(dt);
  }

  /** Midnight UTC on 1 January 2000 is sent as
      `b'Sat, 01 January 2000 00:00:00 GMT'`. */
  lemma {:induction false} SerializeMillennium(utc: DateTime)
    requires utc == Civil(2000, 1, 1, 0, 0, 0, 0, 0)
    ensures Serialize(VDateTime(utc)) == Success(Some(Utf8("Sat, 01 January 2000 00:00:00 GMT")))
  {
    StrftimeMillenniumDefault(utc, DefaultDateFormat());
    SerializeDateTime(utc);
  }

  /** A datetime is serialised by the instant it denotes: the same instant at
      any offset gives the same bytes. */
  lemma {:induction false} SerializeSameInstant(u: DateTime, offset: int)
    requires u.offset == 0
    requires -MinutesPerDay < offset < MinutesPerDay
    requires AtOffset(u, offset).Some?
    ensures Serialize(VDateTime(AtOffset(u, offset).value)) == Serialize(VDateTime(u))
  {
    StrftimeSameInstant(u, offset, DefaultDateFormat());
  }

  // ---------------------------------------------------------------------
  // build_params

  /** What `build_params` accepts: None, a mapping, or an iterable of pairs. */
  datatype Params =
    | NoParams
    | Mapping(dic: Dict<Value>)
    | PairList(pairs: seq<(string, Value)>)

  /** The (key, value) pairs `build_params` iterates over, in order. */
  function Entries(params: Params): seq<(string, Value)> {
    match params
    case NoParams => []
    case Mapping(dic) => dic
    case PairList(pairs) => pairs
  }

  /** `[(key, serialize(value)) for key, value in pairs]`, raising the first failure. */
  function SerializePairs(pairs: seq<(string, Value)>): (r: Result<seq<(string, Option<Bytes>)>, Exception>)
    ensures r.Success? <==> forall i :: 0 <= i < |pairs| ==> Serializable(pairs[i].1)
    ensures r.Success? ==> |r.value| == |pairs|
    ensures r.Success? ==> forall i :: 0 <= i < |pairs| ==>
      r.value[i].0 == pairs[i].0 && r.value[i].1 == Serialize(pairs[i].1).value
    ensures r.Failure? ==> exists i :: 0 <= i < |pairs| && Serialize(pairs[i].1) == Failure(r.error)
  {
    if pairs == [] then Success([])
    else
      var first :- Serialize(pairs[0].1);
      var rest :- SerializePairs(pairs[1..]);
      Success([(pairs[0].0, first)] + rest)
  }

  /** `build_params(params)`: None for None, otherwise one (key, serialised
      value) pair per entry, in order, with no entry dropped. */
  function BuildParams(params: Params): (r: Result<Option<seq<(string, Option<Bytes>)>>, Exception>)
    ensures params.NoParams? ==> r == Success(None)
    ensures !params.NoParams? ==> (r.Success? <==> forall i :: 0 <= i < |Entries(params)| ==> Serializable(Entries(params)[i].1))
    ensures r.Success? && !params.NoParams? ==> r.value.Some? && |r.value.value| == |Entries(params)|
    ensures r.Success? && !params.NoParams? ==> forall i :: 0 <= i < |Entries(params)| ==>
      r.value.value[i].0 == Entries(params)[i].0 && r.value.value[i].1 == Serialize(Entries(params)[i].1).value
  {
    if params.NoParams? then Success(None)
    else
      var pairs :- SerializePairs(Entries(params));
      Success(Some(pairs))
  }

  /** A None value is not filtered out: its key is kept with a None value. */
  lemma {:induction false} BuildParamsKeepsNone(params: Params, i: nat)
    requires !params.NoParams? && i < |Entries(params)|
    requires Entries(params)[i].1 == VNone
    requires BuildParams(params).Success?
    ensures BuildParams(params).value.value[i] == (Entries(params)[i].0, None)
  {
  }

  /** A mapping and the list of its items give the same pairs in the same order. */
  lemma {:induction false} BuildParamsMappingAsPairs(dic: Dict<Value>)
    ensures BuildParams(Mapping(dic)) == BuildParams(PairList(dic))
  {
  }

  /** The pairs built from a mapping have distinct keys, like the mapping. */
  lemma {:induction false} BuildParamsMappingKeys(dic: Dict<Value>)
    requires BuildParams(Mapping(dic)).Success?
    ensures KeysDistinct(BuildParams(Mapping(dic)).value.value)
  {
  }
}
