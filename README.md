# hatena-haiker in Dafny

A model of the core of `hatena-haiker`, a Python client for the Hatena Haiku
REST API, with proofs about it. The core is four files:

- `haiker/utils.py`: `removed_dict`, the UTC-adjusting `strftime`,
  `serialize` and `build_params`.
- `haiker/types.py`: the converters `list_of`, `none_or` and `to_datetime`,
  and the records `Status`, `User`, `Keyword` and `Target`.
- `haiker/error.py`: `HaikerError` and the decorator `HaikerError.replace`.
- `haiker/api.py`: the request handler `BaseAPIHandler` and the `Haiker`
  facade with its 23 endpoint methods.

Modules:

- `Wrappers`: `Option` and `Result`, with failure propagation.
- `Exceptions`: Python exceptions as values. An `Exception` is a built-in
  exception of a kind plus a message, or a `HaikerError` wrapping one.
- `Text`: the Python text behaviour the core relies on:
  - `str(int)` and `int(str)`;
  - `'%0Nd'` padding;
  - `str.strip`, `lstrip` and `rstrip`;
  - `str.replace` for one character;
  - UTF-8 encoding and a strict decoder;
  - `bytes.join` and `bytes.split` for a one-byte separator.
- `Calendar`: aware `datetime` values in years 1..9999 with a fixed UTC offset:
  - day stepping;
  - `astimezone`;
  - ordinals and weekdays.
- `Timestamps`: the two `strptime` patterns of `to_datetime`, and the RFC 3339
  text the API writes timestamps in.
- `Utils`, `Types`, `HaikerErrors`, `Api`: the four core files, one module each.
- `ApiExamples`: the request-handler cases of `tests/test_api.py`, stated on
  the model.

Design choices:

- **JSON and records are values.** JSON is the datatype `Types.Json`: None,
  bool, int, str, list, or an ordered dict with distinct keys. Records are
  datatypes. Each reader (`BuildStatus`, `BuildUser`, ...) reads fields in
  the order the Python constructor does, so the first missing key, wrong
  type or bad text decides the exception.
- **Objects updated in place are classes.** `BaseApiHandler` and `Haiker` are
  classes. The `auth` setter updates the handler in place.
- **The network is a parameter.** The HTTP exchange is a `Transport`
  function: `requests.get`/`post`, `raise_for_status` and `res.json()`
  folded together. It answers a request with JSON or an exception.
- **Decorated calls.** An endpoint call returns an `Outcome`: a value, or a
  raised exception. The decorator `HaikerError.replace` maps outcomes (`Replace`).
- **Endpoints as written.** `Api.Perform` and `Haiker.Call` read responses with
  `FinishAsWritten`, so `friends`, `followers` and `favorite_keywords` return
  an unapplied converter. `Api.Finish` is the corrected reading (see Findings).

## Model

| member | source | states |
|---|---|---|
| Exceptions.MissingKey | haiker/types.py:53 | `d[key]` on a dict without the key raises a KeyError |
| Text.DigitValue | haiker/types.py:55 | a digit character's value is below ten and maps back to the same character |
| Text.NatDigits | haiker/utils.py:36 | `str(n)` of a natural: at least one digit, no leading zero |
| Text.NatDigitsRoundTrip | haiker/utils.py:36 | reading back the digits of `str(n)` gives `n` |
| Text.LeadingZeros | haiker/types.py:31-33 | leading zeros do not change the number a digit string denotes |
| Text.Padded | haiker/utils.py:27 | `'%0Nd' % n` is at least N wide, all digits, and denotes `n` |
| Text.NatDigitsLength | haiker/utils.py:27 | a number below 10^w has at most w digits |
| Text.IntToDecimal | haiker/utils.py:36 | `str(i)` is non-empty, and all digits when `i >= 0` |
| Text.SpaceEnd | haiker/types.py:55 | the end of the white-space run that `int()` skips on the left |
| Text.SpaceStart | haiker/types.py:55 | the start of the white-space run that `int()` skips on the right |
| Text.StripLeft | haiker/types.py:55 | the result is a suffix of the text and does not start with white space |
| Text.StripRight | haiker/types.py:55 | the result is a prefix of the text and does not end with white space |
| Text.IntDecimalRoundTrip | haiker/types.py:55 | `int(str(i)) == i` for every int |
| Text.NatDecimalRoundTrip | haiker/types.py:55 | `int()` reads the digits of a natural back as that natural |
| Text.NegativeDecimalRoundTrip | haiker/types.py:55 | `int()` reads `-` followed by digits as the negative number |
| Text.StripUnpadded | haiker/types.py:55 | a text without surrounding white space is its own strip |
| Text.ParseIntRejects | haiker/types.py:55 | a text starting with something other than white space, a sign or a digit is not an int |
| Text.EncodeChar | haiker/utils.py:40 | UTF-8 of one character: 1 to 4 bytes; one byte equal to the code point exactly for ASCII; all bytes >= 0x80 otherwise |
| Text.Utf8 | haiker/utils.py:40 | `s.encode('utf-8')` has at least one byte per character |
| Text.Utf8Append | haiker/utils.py:40 | encoding a concatenation concatenates the encodings |
| Text.Utf8Ascii | haiker/utils.py:40 | ASCII text encodes byte for byte |
| Text.Utf8Comma | haiker/utils.py:44 | the encoding holds a comma byte exactly when the text holds a comma |
| Text.DecodeEncodedChar | haiker/utils.py:40 | the strict decoder reads one encoded character back, then continues with the rest |
| Text.DecodeOne | haiker/utils.py:40 | the decoder reads back a one-byte (ASCII) character |
| Text.DecodeTwo | haiker/utils.py:40 | the decoder reads back a two-byte character |
| Text.DecodeThree | haiker/utils.py:40 | the decoder reads back a three-byte character |
| Text.DecodeFour | haiker/utils.py:40 | the decoder reads back a four-byte character |
| Text.Utf8RoundTrip | haiker/utils.py:40 | decoding the UTF-8 encoding of any text gives the text back |
| Text.ReplaceChar | haiker/types.py:28 | after `s.replace(c, r)` with `c` not in `r`, no `c` is left |
| Text.ReplaceCharAppend | haiker/types.py:28 | replacing in a concatenation replaces in each part |
| Text.ReplaceCharAbsent | haiker/types.py:28 | replacing a character the text lacks changes nothing |
| Text.LStripChar | haiker/api.py:39 | `s.lstrip('/')` is the suffix left after removing the leading run of `/`, and does not start with `/` |
| Text.RStripChar | haiker/api.py:39 | `s.rstrip('/')` is the prefix left after removing the trailing run of `/`, and does not end with `/` |
| Text.Split | haiker/utils.py:44 | `b.split(sep)` always yields at least one field |
| Text.SplitNoSep | haiker/utils.py:44 | a separator-free prefix joins onto the first field of the split |
| Text.SplitJoin | haiker/utils.py:44 | splitting a join of separator-free parts gives the parts back |
| Calendar.DaysInMonth | haiker/utils.py:23 | a month has 28 to 31 days |
| Calendar.NextDay | haiker/utils.py:23 | the next day is valid; there is none exactly after 9999-12-31 (OverflowError) |
| Calendar.PrevDay | haiker/utils.py:23 | the previous day is valid; there is none exactly before 0001-01-01 |
| Calendar.NextPrevInverse | haiker/utils.py:23 | stepping a day forward then back, or back then forward, is the identity |
| Calendar.Shift | haiker/utils.py:23 | moving the wall clock keeps seconds and microseconds and sets the new offset |
| Calendar.ShiftRoundTrip | haiker/utils.py:23 | shifting back by the same delta to the old offset restores the datetime exactly |
| Calendar.ToUtc | haiker/utils.py:23 | `astimezone(timezone.utc)` yields offset 0, and leaves a UTC datetime unchanged |
| Calendar.AtOffset | haiker/utils.py:23 | `astimezone` to an offset yields that offset |
| Calendar.ToUtcAtOffset | haiker/utils.py:23 | a UTC instant moved to any offset and back to UTC is unchanged |
| Calendar.YearLength | haiker/utils.py:27 | day numbers advance by 366 over a leap year and by 365 otherwise |
| Calendar.NextDayOrdinal | haiker/utils.py:27 | consecutive days have consecutive ordinals |
| Calendar.Weekday | haiker/utils.py:27 | the weekday is in 0..6 |
| Calendar.NextDayWeekday | haiker/utils.py:27 | each day's weekday follows the previous day's, modulo 7 |
| Timestamps.Microseconds | haiker/types.py:33 | `%f` reads at most six digits as fewer than a million microseconds |
| Timestamps.Strptime | haiker/types.py:30-33 | `strptime` succeeds exactly when the text matches and the captured fields form a valid datetime; otherwise ValueError |
| Timestamps.StrptimeFraction | haiker/types.py:33 | the `%f` pattern succeeds only on texts of 26 to 31 characters |
| Timestamps.DateText | haiker/types.py:24-33 | the date part of a timestamp is 10 characters |
| Timestamps.ClockText | haiker/types.py:24-33 | the clock part of a timestamp is 8 characters |
| Timestamps.OffsetHours | haiker/types.py:29 | the hours of an offset are two digits denoting its hours |
| Timestamps.OffsetMinutes | haiker/types.py:29 | the minutes of an offset are two digits denoting its minutes |
| Timestamps.StampText | haiker/types.py:30-33 | a timestamp in the shape the patterns read has the length the zone position implies |
| Timestamps.ColonZone | haiker/types.py:29 | `+HH:MM` is six characters |
| Timestamps.StampDateFields | haiker/types.py:30-33 | year, month and day sit where the pattern reads them |
| Timestamps.StampClockFields | haiker/types.py:30-33 | hour, minute and second sit where the pattern reads them |
| Timestamps.StampFraction | haiker/types.py:33 | the fraction digits follow the point where `%f` reads them |
| Timestamps.StampOffset | haiker/types.py:30-33 | the sign, hours and minutes of the offset sit where `%z` reads them |
| Timestamps.CapturedFields | haiker/types.py:30-33 | a text with the pattern's separators and a datetime's fields in place is captured as that datetime |
| Timestamps.StrptimeStampText | haiker/types.py:30-33 | the pattern reads back every datetime written in its shape |
| Timestamps.StrptimeEitherPattern | haiker/types.py:30-33 | of the two patterns, the one matching the text's shape reads it back and the other rejects it |
| Timestamps.PatternByLength | haiker/types.py:30-33 | with n fraction digits, the pattern without `%f` fails and the one with `%f` reads exactly n digits |
| Utils.DictOf | haiker/api.py:101 | `locals()` as a dict: each name with its value, in order |
| Utils.RemovedDict | haiker/utils.py:12-14 | an entry survives iff the original holds it and its key is not removed; the key set is the difference; no growth |
| Utils.RemovedDictKeeps | haiker/utils.py:12-14 | every named argument whose name is not removed is kept with its value |
| Utils.RemovedDictNothing | haiker/utils.py:12-14 | removing keys the dict lacks (including none) copies it unchanged |
| Utils.TextsOf | haiker/utils.py:27 | `%d %m %H %M %S` print two characters and `%Y` four |
| Utils.Render | haiker/utils.py:27 | `strftime` fails only on a directive outside the modelled set |
| Utils.Format | haiker/utils.py:27 | `date.strftime(fmt)` fails only on an unmodelled directive |
| Utils.RenderAppend | haiker/utils.py:27 | rendering a concatenation of formats concatenates the outputs |
| Utils.RenderAppendDirective | haiker/utils.py:27 | rendering a concatenation that starts with a directive concatenates the outputs |
| Utils.RenderAppendPlain | haiker/utils.py:27 | rendering a concatenation that starts with plain text concatenates the outputs |
| Utils.DirectiveStep | haiker/utils.py:27 | a leading directive prints its text before the rest of the format |
| Utils.PlainStep | haiker/utils.py:27 | a leading plain character is copied before the rest of the format |
| Utils.RenderPlain | haiker/utils.py:27 | text without `%` prints itself |
| Utils.RenderText | haiker/utils.py:27 | appending plain text to a format appends it to the output |
| Utils.RenderField | haiker/utils.py:27 | appending a directive to a format appends the directive's text |
| Utils.DefaultFormatTexts | haiker/utils.py:31 | the default date format prints weekday, day, month name, year, time and ` GMT` in that order |
| Utils.Strftime | haiker/utils.py:17-27 | an aware datetime is formatted as the same instant in UTC; OverflowError when UTC leaves years 1..9999 |
| Utils.StrftimeDefault | haiker/utils.py:17-27 | with the default format, `strftime` succeeds exactly when the UTC conversion does |
| Utils.StrftimeSameInstant | haiker/utils.py:17-27 | the same instant formats identically whatever offset it is written in |
| Utils.NumericFormatTexts | tests/test_utils.py:29-30 | `%Y-%m-%d %H:%M:%S` prints year, month, day, hour, minute, second with their separators |
| Utils.MillenniumTexts | tests/test_utils.py:21 | 2000-01-01 00:00 UTC is a Saturday in January |
| Utils.StrftimeMillenniumDefault | tests/test_utils.py:44-45 | 2000-01-01 UTC formats as `Sat, 01 January 2000 00:00:00 GMT`, the text behind the serialize test's bytes |
| Utils.StrftimeMillenniumNumeric | tests/test_utils.py:29-31 | 2000-01-01 UTC formats as `2000-01-01 00:00:00` |
| Utils.StrftimeMillenniumJapan | tests/test_utils.py:21-32 | the same instant at +09:00 is 09:00 local and still formats as `2000-01-01 00:00:00` |
| Utils.Serialize | haiker/utils.py:30-45 | succeeds exactly on serialisable values; None exactly for None; failures are TypeError (unsupported type) or OverflowError (datetime) |
| Utils.SerializeFields | haiker/utils.py:44 | the fields of a sequence succeed exactly when every element is serialisable, one field per element |
| Utils.Fields | haiker/utils.py:44 | one field per element, each the element's own field |
| Utils.SerializeFieldsAre | haiker/utils.py:44 | the successful fields are exactly the per-element fields |
| Utils.SerializeFieldsStep | haiker/utils.py:44 | the fields of `items[i..]` are the field of `items[i]` followed by the rest |
| Utils.FieldsCons | haiker/utils.py:44 | the fields of a non-empty sequence are its head's field followed by the rest |
| Utils.SerializeSeq | haiker/utils.py:44 | a sequence serialises to its elements' fields joined by `,`, None as an empty field |
| Utils.SerializeSeqSplit | haiker/utils.py:44 | when no field holds a comma, splitting the wire bytes at `,` recovers the fields |
| Utils.SerializeBytesUnchanged | haiker/utils.py:41-42 | bytes are returned unchanged |
| Utils.SerializeDateTime | haiker/utils.py:37-42 | a datetime is the UTF-8 of its UTC `strftime` in the default format, which succeeds whenever the UTC conversion does; otherwise OverflowError |
| Utils.SerializeMillennium | tests/test_utils.py:44-45 | `serialize(datetime(2000, 1, 1, tzinfo=utc))` is the UTF-8 of `Sat, 01 January 2000 00:00:00 GMT` |
| Utils.SerializeStrWhole | haiker/utils.py:39-42 | a str is sent as its UTF-8 bytes, one field even when it is iterable |
| Utils.SerializeIntRoundTrip | haiker/utils.py:35-36 | an int's bytes decode to `str(i)`, which `int()` reads back as `i`; True/False serialise as 1/0 |
| Utils.SerializeEmptySeq | haiker/utils.py:44 | `[]` and `[None]` both serialise to `b''` |
| Utils.SerializeSameInstant | haiker/utils.py:37-38 | a datetime serialises by its instant: the same instant at any offset gives the same bytes |
| Utils.SerializePairs | haiker/utils.py:53-54 | succeeds iff every value is serialisable; keys kept in order with their serialised values; a failure is some value's exception |
| Utils.BuildParams | haiker/utils.py:48-54 | None for None; otherwise one (key, serialised value) pair per entry, in order, failing iff some value is not serialisable |
| Utils.BuildParamsKeepsNone | haiker/utils.py:53-54 | a None value keeps its key, paired with None |
| Utils.BuildParamsMappingAsPairs | haiker/utils.py:52-54 | a mapping builds the same pairs as the list of its items |
| Utils.BuildParamsMappingKeys | haiker/utils.py:52-53 | pairs built from a mapping have distinct keys |
| Types.FindSpec | haiker/types.py:53 | a found value is stored under the key; nothing is found only when no entry has the key |
| Types.FindAt | haiker/types.py:53 | in a dict every key finds the value stored with it |
| Types.FindSize | haiker/types.py:66 | a value found in a dict is smaller than the dict |
| Types.Subscript | haiker/types.py:53 | `d[key]` succeeds iff `d` is a dict holding the key; KeyError for a missing key; TypeError for a non-dict |
| Types.GetOrNone | haiker/types.py:56 | `d.get(key)` succeeds iff `d` is a dict, giving None for a missing key; AttributeError otherwise |
| Types.Iterate | haiker/types.py:11 | `for e in x` works on lists (their items), strs (one per character) and dicts (one per key); TypeError otherwise |
| Types.MapEach | haiker/types.py:11 | `[f(e) for e in xs]` succeeds iff `f` succeeds on every element, with results in order; else the exception of some element |
| Types.ListOf | haiker/types.py:6-12 | `list_of(f)(x)` is `f` mapped over the iteration of `x`, or the iteration's TypeError |
| Types.NoneOr | haiker/types.py:15-21 | `none_or(f)(x)` is None for None, otherwise exactly `f(x)`'s result or exception |
| Types.StrOf | haiker/types.py:53 | `str(x)` of a str is itself, of an int its decimal text |
| Types.IntOf | haiker/types.py:55 | `int(x)` succeeds iff `x` is an int, a bool or a decimal str; ValueError for other strs; TypeError for None, list, dict |
| Types.IntOfStrOf | haiker/types.py:55 | `int(str(i)) == i` |
| Types.DropThirdToLast | haiker/types.py:29 | `x[:-3] + x[-2:]` removes exactly the third character from the end, or leaves a short text unchanged |
| Types.ToDatetime | haiker/types.py:24-33 | tries the pattern without a fraction, then with one; the error is ValueError on the rewritten text; AttributeError for a non-str |
| Types.DigitsNoLetters | haiker/types.py:28 | digits are neither `Z` nor `T` |
| Types.DateNoLetters | haiker/types.py:28 | a written date holds no `Z` or `T` |
| Types.ClockNoLetters | haiker/types.py:28 | a written clock and fraction hold no `Z` or `T` |
| Types.ColonZoneNoLetters | haiker/types.py:28 | a written `+HH:MM` holds no `Z` or `T` |
| Types.UtcColonZone | haiker/types.py:28 | offset zero writes as `+00:00` |
| Types.UtcRewritten | haiker/types.py:28 | `Z` is rewritten to `+00:00` |
| Types.ZoneRewritten | haiker/types.py:28 | every zone, `Z` or `+HH:MM`, rewrites to its `+HH:MM` form |
| Types.ReplaceMiddle | haiker/types.py:28 | replacing in `a + [m] + b` where only `m` may match touches only `m` |
| Types.RewriteLetters | haiker/types.py:28 | the two replacements turn `dateTclockZONE` into `date clock+HH:MM` |
| Types.DropColon | haiker/types.py:29 | the slicing turns a trailing `+HH:MM` into `+HHMM` |
| Types.NormaliseRfc3339 | haiker/types.py:28-29 | the rewriting turns RFC 3339 text into exactly the text the strptime patterns read |
| Types.ToDatetimeRfc3339 | haiker/types.py:24-33 | `to_datetime` reads back every aware datetime from its RFC 3339 text, with or without a fraction |
| Types.ExampleDate | tests/test_types.py:24-26 | 2010-01-02 writes as `2010-01-02` |
| Types.ExampleClock | tests/test_types.py:24-26 | 03:04:05 writes as `03:04:05` |
| Types.ZeroMillis | tests/test_types.py:29 | `000` is a fraction of zero microseconds |
| Types.ExampleText | tests/test_types.py:26-29 | the RFC 3339 text of the examples, piece by piece |
| Types.ExampleZones | tests/test_types.py:26-28 | offset 0 writes as `Z` and +9 hours as `+09:00` |
| Types.ToDatetimeUtcExample | tests/test_types.py:26 | `2010-01-02T03:04:05Z` is 03:04:05 UTC on 2 January 2010 |
| Types.ToDatetimeEastExample | tests/test_types.py:27-28 | `2010-01-02T03:04:05+09:00` is the same clock at +09:00 |
| Types.ToDatetimeMillisExample | tests/test_types.py:27-29 | `2010-01-02T03:04:05.000+09:00` is the same datetime |
| Types.ListOfStrExample | tests/test_types.py:12 | `list_of(str)([1, 2, 3]) == ['1', '2', '3']` |
| Types.IntOfDecimal | haiker/types.py:55 | `int()` reads the decimal text of `i` as `i` |
| Types.ListOfIntExample | tests/test_types.py:13 | `list_of(int)(['1', '2', '3']) == [1, 2, 3]` |
| Types.NoneOrExamples | tests/test_types.py:15-20 | `none_or(str)('a') == 'a'`, `none_or(int)(1) == 1`, and None for None |
| Types.StrAt | haiker/types.py:53 | `str(d[key])` succeeds only when the dict holds the key |
| Types.IntAt | haiker/types.py:55 | `int(d[key])` succeeds only when the dict holds the key |
| Types.OptStrAt | haiker/types.py:56 | `none_or(str)(d.get(key))` is None exactly when the key is missing or null |
| Types.BuildUser | haiker/types.py:83-90 | `User(d)` needs every user key; TypeError on a non-dict; the first key read, `followers_count`, raises KeyError when missing |
| Types.BuildTarget | haiker/types.py:122-126 | `Target(d)` needs title and word; `url_name` is None exactly when absent; KeyError on a missing title |
| Types.OptStrListAt | haiker/types.py:108-109 | `none_or(list_of(str))(d.get(key))` is None exactly when the key is absent |
| Types.KeywordHead | haiker/types.py:103-109 | the counts and link are required; `related_keywords` is None exactly when absent; KeyError on `entry_count` first |
| Types.KeywordNames | haiker/types.py:110-112 | title and word are required; `url_name` is None exactly when absent |
| Types.BuildKeyword | haiker/types.py:103-112 | `Keyword(d)` needs every required key; the optional fields are None exactly when absent |
| Types.DatetimeAt | haiker/types.py:54 | `to_datetime(d['created_at'])` needs the key |
| Types.TargetAt | haiker/types.py:68 | `none_or(Target)(d.get('target'))` is None exactly when absent |
| Types.UserAt | haiker/types.py:70 | `User(d['user'])` needs the key |
| Types.RepliesAt | haiker/types.py:66 | `none_or(list_of(Status))(d.get('replies'))` is no replies exactly when absent |
| Types.StatusHead | haiker/types.py:53-55 | link, creation time and favourite count are required; KeyError on `link` first; TypeError on a non-dict |
| Types.StatusBodies | haiker/types.py:56-59 | each of the four text renderings is None exactly when absent |
| Types.StatusReference | haiker/types.py:60-65 | the id is required; the reply ids and keyword are None exactly when absent |
| Types.StatusTail | haiker/types.py:67-70 | source and user are required; target and text are None exactly when absent |
| Types.BuildStatus | haiker/types.py:51-70 | `Status(d)` needs its required keys; TypeError on a non-dict; KeyError on `link` first |
| Types.OptStrAtJson | haiker/types.py:56 | an optional str written as the API writes it reads back |
| Types.CountAt | haiker/types.py:55 | a count written as a decimal str reads back |
| Types.BuildUserJson | haiker/types.py:83-90 | `User` reads back every user written as the API writes it |
| Types.BuildTargetJson | haiker/types.py:122-126 | `Target` reads back every target |
| Types.StrListRoundTrip | haiker/types.py:108-109 | `list_of(str)` reads back every list of strs |
| Types.StrAtJson | haiker/types.py:53 | a str stored under a key reads back |
| Types.OptStrListAtJson | haiker/types.py:108-109 | an optional list of strs reads back |
| Types.BuildKeywordJson | haiker/types.py:103-112 | `Keyword` reads back every keyword |
| Types.FracDigits | haiker/types.py:33 | the digits chosen for a microsecond count are read by `%f` as that count |
| Types.StatusFieldsDistinct | haiker/types.py:45-49 | the sixteen keys of an entry are distinct |
| Types.StatusFind | haiker/types.py:51-70 | each field of a written entry is found under its key |
| Types.StatusEntriesHead | haiker/types.py:53-56 | keys and values of fields 0-3 of a written entry |
| Types.StatusEntriesBodies | haiker/types.py:57-60 | keys and values of fields 4-7 |
| Types.StatusEntriesReference | haiker/types.py:61-66 | keys and values of fields 8-11 |
| Types.StatusEntriesTail | haiker/types.py:67-70 | keys and values of fields 12-15 |
| Types.StatusMembersHead | haiker/types.py:53-56 | where a written entry keeps its first fields |
| Types.StatusMembersBodies | haiker/types.py:57-60 | where it keeps its text renderings and id |
| Types.StatusMembersReference | haiker/types.py:61-66 | where it keeps what it replies to, its keyword and replies |
| Types.StatusMembersTail | haiker/types.py:67-70 | where it keeps source, target, text and user |
| Types.StatusHeadOf | haiker/types.py:53-55 | the head fields read back from written values |
| Types.StatusBodiesOf | haiker/types.py:56-59 | the text renderings read back |
| Types.StatusReferenceOf | haiker/types.py:60-65 | the id, reply ids and keyword read back |
| Types.StatusTailOf | haiker/types.py:67-70 | source, target, text and user read back |
| Types.RepliesRead | haiker/types.py:66 | each written reply is smaller than the entry and reads back |
| Types.RepliesAtNone | haiker/types.py:66 | a dict without replies reads as none |
| Types.RepliesAtList | haiker/types.py:66 | a list of entries, each smaller and each reading back, reads as those replies |
| Types.RepliesAtJson | haiker/types.py:66 | the replies of every entry read back |
| Types.BuildStatusJson | haiker/types.py:51-70 | `Status` reads back every entry written as the API writes it, replies and all |
| HaikerErrors.CausalError | haiker/error.py:12-15 | `causal_error` is the exception the HaikerError was built from |
| HaikerErrors.Root | haiker/error.py:17-18 | a chain of HaikerErrors ends in a built-in exception |
| HaikerErrors.StrRoot | haiker/error.py:17-18 | `str()` of a HaikerError, however deeply wrapped, is the message of the innermost exception |
| HaikerErrors.Replace | haiker/error.py:20-33 | returns pass through unchanged; a HaikerError is re-raised as is; any other exception is raised as a HaikerError caused by it, with the same `str()` |
| HaikerErrors.ReplaceIdempotent | haiker/error.py:20-33 | wrapping an outcome twice is wrapping it once |
| HaikerErrors.Wrap | haiker/error.py:20-33 | the decorated function's outcome on every argument is the wrapped outcome of the original |
| HaikerErrors.WrapIdempotent | haiker/error.py:20-33 | a function decorated twice behaves as one decorated once |
| HaikerErrors.Plus | tests/test_error.py:14 | Python's `x + y` on JSON values: two strs or two lists concatenate, ints and bools add numerically (a bool counts 0 or 1); any other pair, None included, raises TypeError |
| HaikerErrors.DecoratedSum | tests/test_error.py:13 | `f` returns iff all three `int()` conversions succeed; otherwise raises a HaikerError over a built-in exception |
| HaikerErrors.DecoratedConcatSum | tests/test_error.py:14 | `g` raises only HaikerErrors over a built-in exception |
| HaikerErrors.ParsesAs | tests/test_error.py:13 | `int()` reads the decimal text of `i` as `i` |
| HaikerErrors.TextInts | tests/test_error.py:15-16 | the texts the test passes read as 12, 34, 56, 1234, 0 and 1 |
| HaikerErrors.DecoratedReturns | tests/test_error.py:15-16 | `f('12', '34', '56') == 102` and `g('12', '34', '56') == 1290` |
| HaikerErrors.ConcatSumIsSum | tests/test_error.py:14 | `g(x, y, z)` is `f(x + y, z)`, rewrapped, when `x + y` succeeds |
| HaikerErrors.SumReturns | tests/test_error.py:13 | `f` returns the sum of the ints the three texts denote |
| HaikerErrors.SumOfIntsValue | tests/test_error.py:13 | undecorated, the sum of three readable texts is the sum of their ints |
| HaikerErrors.NotAnInt | tests/test_error.py:18 | `int('a')` raises ValueError |
| HaikerErrors.SumRaisesValueError | tests/test_error.py:17-18 | when a str argument is not an int, `f` raises a HaikerError caused by a ValueError |
| HaikerErrors.DecoratedRaisesValueError | tests/test_error.py:18-25 | `f('1', 'a')` and `f('a', 'b', '3')` raise a HaikerError whose cause is a ValueError |
| HaikerErrors.DecoratedTwiceRaisesValueError | tests/test_error.py:19 | `g('1', '2', 'a')` raises a HaikerError caused by a ValueError, not a HaikerError around one |
| HaikerErrors.DecoratedRaisesTypeError | tests/test_error.py:21 | `g(None, None, None)` raises a HaikerError caused by the TypeError of `None + None` |
| Api.SearchFrom | haiker/api.py:37 | `re.search` finds the first position where the pattern matches, or reports none matches |
| Api.SearchAccepts | haiker/api.py:37-38 | the pattern finds nothing exactly in paths made of `[a-zA-Z0-9./\-_]` with no `..` and no `//` |
| Api.StripTrailingSlashes | haiker/api.py:39 | `rstrip('/')` removes exactly the trailing slashes |
| Api.StripLeadingSlashes | haiker/api.py:39 | `lstrip('/')` removes exactly the leading slashes |
| Api.JoinUrlOneSlash | haiker/api.py:39 | however many slashes end the root and start the path, the URL has exactly one between them |
| Api.SuspiciousPath | haiker/api.py:38 | a suspicious path raises ValueError |
| Api.Prepare | haiker/api.py:36-44 | a rejected path raises ValueError before anything else; otherwise the request carries the joined URL, the User-Agent header, the credentials and the built params and data, failing iff either build fails |
| Api.BaseApiHandler.constructor | haiker/api.py:30-34 | the handler stores the credentials, root and User-Agent |
| Api.BaseApiHandler.Request | haiker/api.py:36-46 | `_request` sends the prepared request through the transport; a suspicious path raises ValueError and reaches no transport |
| Api.BaseApiHandler.Fetch | haiker/api.py:48-49 | `get` is a GET request with query parameters only |
| Api.BaseApiHandler.Submit | haiker/api.py:51-53 | `post` is a POST request with params, data and files |
| Api.Parameters | haiker/api.py:96-309 | every endpoint declares distinct parameter names |
| Api.Argument | haiker/api.py:101 | the value of a named argument is the argument passed in that position |
| Api.Lookup | haiker/api.py:101 | in a dict with distinct keys, a name finds the value stored with it |
| Api.FormatValue | haiker/api.py:123 | `'{0}'.format(v)` of a str is itself and of an int its decimal text |
| Api.EndpointPath | haiker/api.py:120-123 | a fixed path as is; `{base}.json` without `url_name`; otherwise `{base}/{text}.json` where text is `'{0}'.format` of the `url_name` or required argument, whatever its type, and that formatting's exception when it fails |
| Api.NumericStatusPath | haiker/api.py:161-164 | `show_status(123)` requests `/statuses/show/123.json`: an int id is placed as its decimal text |
| Api.FilePairs | haiker/api.py:154-155 | `files` becomes `[('file', f) for f in files]`, in order, or stays None; a str yields its characters and bytes their int values; a bool, int or datetime raises TypeError |
| Api.PayloadOf | haiker/api.py:153-157 | endpoints without parameters send nothing; `update_status` sends its arguments as form data and its files as `file` pairs; the others send the remaining arguments |
| Api.PayloadKeys | haiker/api.py:101-163 | the sent parameters are a dict without `self` or the path argument, and keep every other argument with its value |
| Api.RemovedKeysHave | haiker/api.py:119-153 | `self`, `url_name` or the path argument, and an upload's `files` are the removed keys |
| Api.Read | haiker/api.py:104-209 | a response read successfully is records, never a bare converter; each reading succeeds exactly when its `Status`/`User`/`Keyword` builder, or `list_of` of it, succeeds on the response |
| Api.Finish | haiker/api.py:96-309 | as intended, each endpoint returns records built from its response |
| Api.FinishAsWritten | haiker/api.py:247-293 | as written, all endpoints except `friends`, `followers` and `favorite_keywords` read their response as intended |
| Api.FinishAsWrittenIgnoresResponse | haiker/api.py:247-293 | as written, those three succeed on any response (e.g. null), returning the converter; the intended reading rejects null |
| Api.ReadsStatuses | haiker/api.py:104 | `list_of(Status)` reads back every list of entries |
| Api.ReadsUsers | haiker/api.py:256 | `list_of(User)` reads back every list of users |
| Api.ReadsKeywords | haiker/api.py:217-226 | `list_of(Keyword)` reads back every list of keywords |
| Api.ReadStatusesList | haiker/api.py:104 | a response read by `list_of(Status)` is those entries |
| Api.ReadUsersList | haiker/api.py:256 | a response read by `list_of(User)` is those users |
| Api.ReadKeywordsList | haiker/api.py:293 | a response read by `list_of(Keyword)` is those keywords |
| Api.FinishReadsStatuses | haiker/api.py:98-146 | each of the five timeline endpoints, as intended and as written, returns exactly the entries its response lists |
| Api.FinishReadsStatus | haiker/api.py:150-190 | `update_status`, `show_status`, `delete_status`, `add_star` and `remove_star`, as intended and as written, return exactly the entry the response holds |
| Api.FinishReadsUser | haiker/api.py:194-281 | `show_user`, `add_friend` and `remove_friend`, as intended and as written, return exactly the user the response holds |
| Api.FinishReadsKeyword | haiker/api.py:204-309 | `show_keyword`, `associate_keywords`, `dissociate_keywords` and the favourite-keyword updates, as intended and as written, return exactly the keyword the response holds |
| Api.FinishReadsUsers | haiker/api.py:247-267 | as intended, `friends` and `followers` return the users the response lists |
| Api.FinishReadsKeywords | haiker/api.py:212-293 | as intended, `hot_keywords`, `keyword_list` and `favorite_keywords` return the keywords the response lists; as written, the first two do |
| Api.Perform | haiker/api.py:98-309 | an endpoint call as written: a suspicious path raises the ValueError of that path, and a successful call returns a bare converter exactly for `friends`, `followers` and `favorite_keywords` |
| Api.GetSendsQuery | haiker/api.py:48-49 | a GET endpoint sends no form data and no files |
| Api.Haiker.constructor | haiker/api.py:76-84 | a new facade owns a new handler holding the credentials, root and User-Agent |
| Api.Haiker.SetAuth | haiker/api.py:91-94 | the setter updates the handler's credentials in place and nothing else |
| Api.Haiker.Call | haiker/api.py:97-309 | an endpoint method as written is the wrapped outcome of `Perform`; anything it raises is a HaikerError, and it returns a bare converter exactly for `friends`, `followers` and `favorite_keywords` |
| Api.AuthProperty | tests/test_api.py:143-150 | the `auth` property reads the constructor's credentials, and after setting it reads the new ones, as does the handler |
| ApiExamples.RejectedAt | haiker/api.py:37 | one match of the pattern anywhere rejects the path |
| ApiExamples.MaliciousPathsRejected | tests/test_api.py:133-135 | `../../malicious`, `////malicious`, a full-width letter and `# ` are all rejected |
| ApiExamples.NormalPathAccepted | tests/test_api.py:132 | `/get/Th1s-1S_N0rm4L.json` is accepted |
| ApiExamples.JoinedUrl | tests/test_api.py:105-132 | the tests' root `http://h.hatena.ne.jp/api/` joined with any `/`-prefixed path has exactly one slash between, e.g. `/get/method.json` gives `http://h.hatena.ne.jp/api/get/method.json` |
| ApiExamples.SuspiciousUrl | tests/test_api.py:103-135 | through the test's handler (its root and `TestUserAgent`), the normal path reaches the transport at the joined URL with that User-Agent; the malicious one raises ValueError without it |

## Left out

- `haiker/auth.py` (BasicAuth and OAuth, and the OAuth token exchange) is not part of this model. Credentials are carried as opaque `Auth` values.
- The network. `requests.get`/`post`, `raise_for_status` and `res.json()` are one `Transport` parameter, which returns decoded JSON or an exception (HTTPError included).
- The naive-datetime branch of `strftime` (`time.mktime`/`time.gmtime`). It depends on the machine's local time zone. Only aware datetimes are modelled.
- Locales, and every `strftime` directive except `%a %d %B %m %Y %H %M %S`. Other directives give an `Unmodelled` failure.
- `__repr__` and `_repr` of the records. They are debugging output only.
- Utils.Serialize: keyword arguments are fixed to the defaults (`charset='utf-8'` and the default date format).
- Utils.Serialize: a str holding a lone surrogate (such as `'\ud800'`), and the UnicodeEncodeError (a ValueError) its `encode('utf-8')` raises, are not modelled: a Dafny `char` cannot hold a surrogate, so every modelled str encodes.
- Utils.Serialize: general iterables (sets, generators, dicts) are not modelled. Only sequences are. Complex numbers and other unsupported types are one `VOther` case.
- JSON floats are not modelled. No field of the API's responses that the records read is a float.
- Types.StrOf: `str()` of a list or a dict (Python's repr of a container) is an `Unmodelled` failure.
- Text.ParseInt: Unicode digits and underscores, which Python's `int()` also accepts, are not accepted. Only ASCII digits and Python's white space are.
- Timestamps.Strptime: one-digit fields, white-space runs and non-ASCII decimal digits (such as fullwidth digits, which `strptime`'s `\d` matches), all of which `strptime` also accepts, are not accepted. Fields are fixed-width ASCII, as the API writes them.
- TextsOf (Utils.TextsOf): `%Y` always prints four zero-padded digits. For years below 1000, glibc's `strftime` prints fewer digits and Python 3.2's raises ValueError; those platform differences are not modelled.
- Api.FilePairs: `files` given as some other iterable (a generator, a set, an open file) is one `VOther` case and raises TypeError here, where Python would iterate it.
- The exact message texts of exceptions. The kind of every exception is modelled. Messages are kept only where a contract uses them: KeyError's key, ValueError's text, and the suspicious path.
- The suspicious-path message puts the path in quotes without Python's repr escaping.
- Object identity (`assertIs`). It is modelled as equality of values.
- Endpoint arity: Python's TypeError for a call with the wrong number of arguments. `Api.Haiker.Call` requires exactly one value per declared parameter, with None for an omitted keyword.
- Api.FormatValue: formatting bytes, a datetime or a sequence into a path is an `Unmodelled` failure.
- The STATUS/USER/KEYWORD sample dicts of `tests/samples.py`. The record tests are covered by the all-inputs round trips (`Types.BuildStatusJson` and the others) rather than by one sample.
- `DEFAULT_USER_AGENT`: the version is fixed at 0.4.0, read from `haiker/__init__.py`.
- Utils.BuildParams: a None value is kept as `(key, None)`, as `haiker/utils.py:53-54` does. It is not dropped.
- `types.to_datetime` on a str that is not RFC 3339: the model follows the code, and the second `strptime` attempt decides the ValueError.

## Findings

| source | as written | input that shows it | evidently intended | confidence | as-written member | corrected member |
|---|---|---|---|---|---|---|
| haiker/api.py:256, haiker/api.py:267, haiker/api.py:293 | `friends`, `followers` and `favorite_keywords` return the converter `types.list_of(types.User)` / `types.list_of(types.Keyword)` without applying it to `res` | any response, e.g. a JSON `null`, which the other list endpoints reject with a TypeError | `types.list_of(...)(res)`, as every other list endpoint does | not executed | Api.FinishAsWritten, Api.FinishAsWrittenIgnoresResponse, Api.Perform | Api.Finish, Api.FinishReadsUsers, Api.FinishReadsKeywords |
