/** The pieces of Python's text and bytes behaviour that the library relies
    on: `str(int)`, `int(str)`, zero-padded numbers, UTF-8 encoding,
    `str.replace`, `str.strip`, `bytes.join` and `bytes.split`. */
module Text {
  import opened Wrappers

  newtype byte = b: int | 0 <= b < 256
  type Bytes = seq<byte>

  const Comma: byte := 0x2C

  // ---------------------------------------------------------------------
  // Decimal digits

  predicate IsDigit(c: char) {
    '0' <= c <= '9'
  }

  predicate AllDigits(s: string) {
    forall i :: 0 <= i < |s| ==> IsDigit(s[i])
  }

  function DigitChar(d: nat): (c: char)
    requires d < 10
    ensures IsDigit(c) && c as int - '0' as int == d
  {
    (d + '0' as int) as char
  }

  function DigitValue(c: char): (d: nat)
    requires IsDigit(c)
    ensures d < 10 && DigitChar(d) == c
  {
    c as int - '0' as int
  }

  /** The decimal digits of `n`, most significant first, no leading zero. */
  function NatDigits(n: nat): (s: string)
    ensures |s| >= 1 && AllDigits(s)
    ensures |s| > 1 ==> s[0] != '0'
    decreases n
  {
    if n < 10 then [DigitChar(n)] else NatDigits(n / 10) + [DigitChar(n % 10)]
  }

  /** The number a string of decimal digits denotes (leading zeros allowed). */
  function DigitsValue(s: string): nat
    requires AllDigits(s)
  {
    if s == [] then 0 else DigitsValue(s[..|s| - 1]) * 10 + DigitValue(s[|s| - 1])
  }

  lemma {:induction false} NatDigitsRoundTrip(n: nat)
    ensures DigitsValue(NatDigits(n)) == n
    decreases n
  {
    if n >= 10 {
      NatDigitsRoundTrip(n / 10);
      var s := NatDigits(n);
      assert s[..|s| - 1] == NatDigits(n / 10);
    }
  }

  function Zeros(k: nat): (s: string)
    ensures |s| == k && AllDigits(s)
    ensures forall i :: 0 <= i < k ==> s[i] == '0'
  {
    if k == 0 then [] else Zeros(k - 1) + ['0']
  }

  lemma {:induction false} LeadingZeros(k: nat, d: string)
    requires AllDigits(d)
    ensures AllDigits(Zeros(k) + d) && DigitsValue(Zeros(k) + d) == DigitsValue(d)
    decreases |d|
  {
    if d == [] {
      assert Zeros(k) + d == Zeros(k);
      ZerosValue(k);
    } else {
      var s := Zeros(k) + d;
      assert s[..|s| - 1] == Zeros(k) + d[..|d| - 1];
      LeadingZeros(k, d[..|d| - 1]);
    }
  }

  lemma {:induction false} ZerosValue(k: nat)
    ensures DigitsValue(Zeros(k)) == 0
  {
    if k > 0 {
      var s := Zeros(k);
      assert s[..k - 1] == Zeros(k - 1);
      ZerosValue(k - 1);
    }
  }

  /** `'%0<width>d' % n`: the digits of `n`, left-padded with zeros to `width`. */
  function Padded(n: nat, width: nat): (s: string)
    ensures |s| == if |NatDigits(n)| < width then width else |NatDigits(n)|
    ensures AllDigits(s) && DigitsValue(s) == n
  {
    var d := NatDigits(n);
    NatDigitsRoundTrip(n);
    if |d| < width then LeadingZeros(width - |d|, d); Zeros(width - |d|) + d else d
  }

  /** Digits of `n` never outnumber the digits of the bound it stays under. */
  lemma {:induction false} NatDigitsLength(n: nat, width: nat, bound: nat)
    requires width >= 1 && bound == Pow10(width) && n < bound
    ensures |NatDigits(n)| <= width
    decreases width
  {
    if n >= 10 {
      NatDigitsLength(n / 10, width - 1, Pow10(width - 1));
    }
  }

  function Pow10(k: nat): (p: nat)
    ensures p >= 1
  {
    if k == 0 then 1 else 10 * Pow10(k - 1)
  }

  // ---------------------------------------------------------------------
  // str(int) and int(str)

  /** Python's `str(i)` for an int: an optional minus sign, then digits. */
  function IntToDecimal(i: int): (s: string)
    ensures |s| >= 1
    ensures i >= 0 ==> AllDigits(s)
  {
    if i < 0 then "-" + NatDigits(-i) else NatDigits(i)
  }

  /** The characters Python's `str.isspace` accepts, which `int()` strips. */
  predicate IsSpace(c: char) {
    || '\t' <= c <= '\r'
    || '\U{1C}' <= c <= ' '
    || c == '\U{85}' || c == '\U{A0}' || c == '\U{1680}'
    || '\U{2000}' <= c <= '\U{200A}'
    || c == '\U{2028}' || c == '\U{2029}' || c == '\U{202F}' || c == '\U{205F}' || c == '\U{3000}'
  }

  /** Where the white space starting at `i` ends. */
  function SpaceEnd(s: string, i: nat): (k: nat)
    requires i <= |s|
    ensures i <= k <= |s| && (k == |s| || !IsSpace(s[k]))
    decreases |s| - i
  {
    if i == |s| || !IsSpace(s[i]) then i else SpaceEnd(s, i + 1)
  }

  /** Where the white space ending at `k` starts. */
  function SpaceStart(s: string, k: nat): (i: nat)
    requires k <= |s|
    ensures i <= k && (i == 0 || !IsSpace(s[i - 1]))
  {
    if k == 0 || !IsSpace(s[k - 1]) then k else SpaceStart(s, k - 1)
  }

  function StripLeft(s: string): (t: string)
    ensures |t| <= |s| && t == s[|s| - |t|..]
    ensures t == [] || !IsSpace(t[0])
  {
    s[SpaceEnd(s, 0)..]
  }

  function StripRight(s: string): (t: string)
    ensures |t| <= |s| && t == s[..|t|]
    ensures t == [] || !IsSpace(t[|t| - 1])
  {
    s[..SpaceStart(s, |s|)]
  }

  /** `str.strip()` with no argument. */
  function Strip(s: string): string {
    StripRight(StripLeft(s))
  }

  /** Python's `int(s)` for a str, decimal only: surrounding white space, an
      optional sign and at least one digit; anything else raises ValueError
      (`None` here). */
  function ParseInt(s: string): Option<int> {
    var t := Strip(s);
    if |t| >= 2 && (t[0] == '-' || t[0] == '+') && AllDigits(t[1..]) then
      var v: int := DigitsValue(t[1..]);
      Some(if t[0] == '-' then -v else v)
    else if |t| >= 1 && AllDigits(t) then
      Some(DigitsValue(t))
    else
      None
  }

  /** `int(str(i)) == i`: the decimal text of an int reads back as that int. */
  lemma {:induction false} IntDecimalRoundTrip(i: int)
    ensures ParseInt(IntToDecimal(i)) == Some(i)
  {
    if i < 0 {
      NegativeDecimalRoundTrip(-i, IntToDecimal(i));
    } else {
      NatDecimalRoundTrip(i, IntToDecimal(i));
    }
  }

  lemma {:induction false} NatDecimalRoundTrip(n: nat, d: string)
    requires d == NatDigits(n)
    ensures ParseInt(d) == Some(n)
  {
    NatDigitsRoundTrip(n);
    assert IsDigit(d[0]) && IsDigit(d[|d| - 1]);
    StripUnpadded(d);
    assert d[0] != '-' && d[0] != '+';
  }

  lemma {:induction false} NegativeDecimalRoundTrip(n: nat, s: string)
    requires s == "-" + NatDigits(n)
    ensures ParseInt(s) == Some(-(n as int))
  {
    var d := NatDigits(n);
    NatDigitsRoundTrip(n);
    assert s[|s| - 1] == d[|d| - 1] && IsDigit(d[|d| - 1]);
    StripUnpadded(s);
    assert s[1..] == d;
  }

  /** A text that neither starts nor ends with white space is its own strip. */
  lemma {:induction false} StripUnpadded(s: string)
    requires |s| >= 1 && !IsSpace(s[0]) && !IsSpace(s[|s| - 1])
    ensures Strip(s) == s
  {
    assert StripLeft(s) == s;
    assert StripRight(s) == s;
  }

  /** A text that starts with a character other than white space, a sign or
      a digit, and does not end in white space, is not an int. */
  lemma {:induction false} ParseIntRejects(s: string)
    requires |s| >= 1 && !IsSpace(s[0]) && !IsSpace(s[|s| - 1])
    requires !IsDigit(s[0]) && s[0] != '-' && s[0] != '+'
    ensures ParseInt(s) == None
  {
    StripUnpadded(s);
    assert !AllDigits(s) by { assert !IsDigit(s[0]); }
  }

  // ---------------------------------------------------------------------
  // UTF-8

  predicate IsScalar(cp: int) {
    0 <= cp < 0xD800 || 0xE000 <= cp < 0x11_0000
  }

  predicate IsContinuation(b: byte) {
    0x80 <= b < 0xC0
  }

  /** The UTF-8 encoding of one character (Unicode scalar value). */
  function EncodeChar(c: char): (b: Bytes)
    ensures 1 <= |b| <= 4
    ensures c as int < 0x80 <==> |b| == 1
    ensures c as int < 0x80 ==> b[0] as int == c as int
    ensures c as int >= 0x80 ==> forall i :: 0 <= i < |b| ==> b[i] >= 0x80
  {
    var cp := c as int;
    if cp < 0x80 then
      [cp as byte]
    else if cp < 0x800 then
      [(0xC0 + cp / 64) as byte, (0x80 + cp % 64) as byte]
    else if cp < 0x1_0000 then
      [(0xE0 + cp / 4096) as byte, (0x80 + (cp / 64) % 64) as byte, (0x80 + cp % 64) as byte]
    else
      [(0xF0 + cp / 262144) as byte, (0x80 + (cp / 4096) % 64) as byte,
       (0x80 + (cp / 64) % 64) as byte, (0x80 + cp % 64) as byte]
  }

  /** `s.encode('utf-8')`. */
  function Utf8(s: string): (b: Bytes)
    ensures |b| >= |s|
  {
    if s == [] then [] else EncodeChar(s[0]) + Utf8(s[1..])
  }

  lemma {:induction false} Utf8Append(s: string, t: string)
    ensures Utf8(s + t) == Utf8(s) + Utf8(t)
  {
    if s == [] {
      assert s + t == t;
    } else {
      assert (s + t)[0] == s[0];
      assert (s + t)[1..] == s[1..] + t;
      Utf8Append(s[1..], t);
      calc {
        Utf8(s + t);
        EncodeChar(s[0]) + Utf8(s[1..] + t);
        EncodeChar(s[0]) + (Utf8(s[1..]) + Utf8(t));
        (EncodeChar(s[0]) + Utf8(s[1..])) + Utf8(t);
      }
    }
  }

  /** An ASCII text encodes to one byte per character, byte == code point. */
  lemma {:induction false} Utf8Ascii(s: string)
    requires forall i :: 0 <= i < |s| ==> s[i] as int < 0x80
    ensures |Utf8(s)| == |s|
    ensures forall i :: 0 <= i < |s| ==> Utf8(s)[i] as int == s[i] as int
  {
    if s != [] {
      Utf8Ascii(s[1..]);
    }
  }

  /** A comma byte appears in the encoding exactly when the text has a comma:
      every byte of a multi-byte sequence is 0x80 or above. */
  lemma {:induction false} Utf8Comma(s: string)
    ensures Comma in Utf8(s) <==> ',' in s
  {
    if s != [] {
      Utf8Comma(s[1..]);
      var e := EncodeChar(s[0]);
      assert Utf8(s) == e + Utf8(s[1..]);
      assert Comma in e <==> s[0] == ',';
      assert s == [s[0]] + s[1..];
    }
  }

  /** A strict UTF-8 decoder (`bytes.decode('utf-8')`): rejects overlong
      forms, surrogates and values beyond U+10FFFF. */
  function DecodeUtf8(b: Bytes): Option<string>
    decreases |b|
  {
    if b == [] then Some([])
    else if b[0] < 0x80 then
      var rest :- DecodeUtf8(b[1..]);
      Some([b[0] as int as char] + rest)
    else if 0xC2 <= b[0] < 0xE0 && |b| >= 2 && IsContinuation(b[1]) then
      var cp := (b[0] as int - 0xC0) * 64 + (b[1] as int - 0x80);
      var rest :- DecodeUtf8(b[2..]);
      Some([cp as char] + rest)
    else if 0xE0 <= b[0] < 0xF0 && |b| >= 3 && IsContinuation(b[1]) && IsContinuation(b[2]) then
      var cp := ((b[0] as int - 0xE0) * 64 + (b[1] as int - 0x80)) * 64 + (b[2] as int - 0x80);
      if cp < 0x800 || !IsScalar(cp) then None
      else
        var rest :- DecodeUtf8(b[3..]);
        Some([cp as char] + rest)
    else if 0xF0 <= b[0] < 0xF5 && |b| >= 4 && IsContinuation(b[1]) && IsContinuation(b[2]) && IsContinuation(b[3]) then
      var cp := (((b[0] as int - 0xF0) * 64 + (b[1] as int - 0x80)) * 64 + (b[2] as int - 0x80)) * 64 + (b[3] as int - 0x80);
      if cp < 0x1_0000 || cp >= 0x11_0000 then None
      else
        var rest :- DecodeUtf8(b[4..]);
        Some([cp as char] + rest)
    else
      None
  }

  lemma {:induction false} DecodeEncodedChar(c: char, rest: Bytes)
    ensures DecodeUtf8(EncodeChar(c) + rest) ==
      (match DecodeUtf8(rest) case Some(t) => Some([c] + t) case None => None)
  {
    var cp := c as int;
    if cp < 0x80 {
      DecodeOne(c, rest);
    } else if cp < 0x800 {
      DecodeTwo(c, rest);
    } else if cp < 0x1_0000 {
      DecodeThree(c, rest);
    } else {
      DecodeFour(c, rest);
    }
  }

  lemma {:induction false} DecodeOne(c: char, rest: Bytes)
    requires c as int < 0x80
    ensures DecodeUtf8(EncodeChar(c) + rest) ==
      (match DecodeUtf8(rest) case Some(t) => Some([c] + t) case None => None)
  {
    var b := EncodeChar(c) + rest;
    assert b[0] as int == c as int;
    assert b[1..] == rest;
  }

  lemma {:induction false} DecodeTwo(c: char, rest: Bytes)
    requires 0x80 <= c as int < 0x800
    ensures DecodeUtf8(EncodeChar(c) + rest) ==
      (match DecodeUtf8(rest) case Some(t) => Some([c] + t) case None => None)
  {
    var cp := c as int;
    var b := EncodeChar(c) + rest;
    assert b[0] as int == 0xC0 + cp / 64 && b[1] as int == 0x80 + cp % 64;
    assert (b[0] as int - 0xC0) * 64 + (b[1] as int - 0x80) == cp;
    assert b[2..] == rest;
  }

  lemma {:induction false} DecodeThree(c: char, rest: Bytes)
    requires 0x800 <= c as int < 0x1_0000
    ensures DecodeUtf8(EncodeChar(c) + rest) ==
      (match DecodeUtf8(rest) case Some(t) => Some([c] + t) case None => None)
  {
    var cp := c as int;
    var b := EncodeChar(c) + rest;
    assert b[0] as int == 0xE0 + cp / 4096;
    assert b[1] as int == 0x80 + (cp / 64) % 64;
    assert b[2] as int == 0x80 + cp % 64;
    ThreeUnits(cp);
    assert IsScalar(cp);
    assert b[3..] == rest;
  }

  lemma {:induction false} DecodeFour(c: char, rest: Bytes)
    requires 0x1_0000 <= c as int
    ensures DecodeUtf8(EncodeChar(c) + rest) ==
      (match DecodeUtf8(rest) case Some(t) => Some([c] + t) case None => None)
  {
    var cp := c as int;
    var b := EncodeChar(c) + rest;
    assert b[0] as int == 0xF0 + cp / 262144;
    assert b[1] as int == 0x80 + (cp / 4096) % 64;
    assert b[2] as int == 0x80 + (cp / 64) % 64;
    assert b[3] as int == 0x80 + cp % 64;
    FourUnits(cp);
    assert b[4..] == rest;
  }

  /** A code point is its six-bit groups, most significant first. */
  lemma {:induction false} SixBitGroups(x: int)
    requires x >= 0
    ensures (x / 64) / 64 == x / 4096 && (x / 4096) / 64 == x / 262144
    ensures x == (x / 64) * 64 + x % 64
    ensures x / 64 == (x / 4096) * 64 + (x / 64) % 64
    ensures x / 4096 == (x / 262144) * 64 + (x / 4096) % 64
  {
  }

  lemma {:induction false} ThreeUnits(cp: int)
    requires 0 <= cp
    ensures ((cp / 4096) * 64 + (cp / 64) % 64) * 64 + cp % 64 == cp
  {
    SixBitGroups(cp);
  }

  lemma {:induction false} FourUnits(cp: int)
    requires 0 <= cp
    ensures (((cp / 262144) * 64 + (cp / 4096) % 64) * 64 + (cp / 64) % 64) * 64 + cp % 64 == cp
  {
    SixBitGroups(cp);
  }

  /** Decoding undoes encoding: `s.encode('utf-8').decode('utf-8') == s`. */
  lemma {:induction false} Utf8RoundTrip(s: string)
    ensures DecodeUtf8(Utf8(s)) == Some(s)
  {
    if s != [] {
      Utf8RoundTrip(s[1..]);
      DecodeEncodedChar(s[0], Utf8(s[1..]));
      assert [s[0]] + s[1..] == s;
    }
  }

  // ---------------------------------------------------------------------
  // str.replace with a one-character pattern, str.lstrip / rstrip of one character

  /** `s.replace(c, r)` for a one-character `c`: every occurrence is replaced. */
  function ReplaceChar(s: string, c: char, r: string): (t: string)
    ensures c !in r ==> c !in t
  {
    if s == [] then [] else (if s[0] == c then r else [s[0]]) + ReplaceChar(s[1..], c, r)
  }

  lemma {:induction false} ReplaceCharAppend(s: string, t: string, c: char, r: string)
    ensures ReplaceChar(s + t, c, r) == ReplaceChar(s, c, r) + ReplaceChar(t, c, r)
  {
    if s == [] {
      assert s + t == t;
    } else {
      assert (s + t)[0] == s[0];
      assert (s + t)[1..] == s[1..] + t;
      ReplaceCharAppend(s[1..], t, c, r);
      var h := if s[0] == c then r else [s[0]];
      calc {
        ReplaceChar(s + t, c, r);
        h + ReplaceChar(s[1..] + t, c, r);
        h + (ReplaceChar(s[1..], c, r) + ReplaceChar(t, c, r));
        (h + ReplaceChar(s[1..], c, r)) + ReplaceChar(t, c, r);
      }
    }
  }

  lemma {:induction false} ReplaceCharAbsent(s: string, c: char, r: string)
    requires c !in s
    ensures ReplaceChar(s, c, r) == s
  {
    if s != [] {
      assert s[1..] == s[1..] && c !in s[1..] by {
        forall x | x in s[1..] ensures x in s { }
      }
      ReplaceCharAbsent(s[1..], c, r);
      assert [s[0]] + s[1..] == s;
    }
  }

  /** `s.lstrip(c)`: every leading `c` removed. */
  function LStripChar(s: string, c: char): (t: string)
    ensures |t| <= |s| && t == s[|s| - |t|..]
    ensures t == [] || t[0] != c
    ensures forall i :: 0 <= i < |s| - |t| ==> s[i] == c
  {
    if s != [] && s[0] == c then LStripChar(s[1..], c) else s
  }

  /** `s.rstrip(c)`: every trailing `c` removed. */
  function RStripChar(s: string, c: char): (t: string)
    ensures |t| <= |s| && t == s[..|t|]
    ensures t == [] || t[|t| - 1] != c
    ensures forall i :: |t| <= i < |s| ==> s[i] == c
  {
    if s != [] && s[|s| - 1] == c then RStripChar(s[..|s| - 1], c) else s
  }

  // ---------------------------------------------------------------------
  // bytes.join and bytes.split

  /** `sep.join(parts)` for a one-byte separator. */
  function Join(parts: seq<Bytes>, sep: byte): Bytes {
    if |parts| == 0 then []
    else if |parts| == 1 then parts[0]
    else parts[0] + [sep] + Join(parts[1..], sep)
  }

  /** `b.split(sep)` for a one-byte separator: always at least one field. */
  function Split(b: Bytes, sep: byte): (r: seq<Bytes>)
    ensures |r| >= 1
  {
    if b == [] then [[]]
    else
      var rest := Split(b[1..], sep);
      if b[0] == sep then [[]] + rest else [[b[0]] + rest[0]] + rest[1..]
  }

  lemma {:induction false} SplitNoSep(p: Bytes, q: Bytes, sep: byte)
    requires sep !in p
    ensures Split(p + q, sep) == [p + Split(q, sep)[0]] + Split(q, sep)[1..]
  {
    if p != [] {
      assert (p + q)[1..] == p[1..] + q;
      assert sep !in p[1..] by {
        forall x | x in p[1..] ensures x in p { }
      }
      SplitNoSep(p[1..], q, sep);
      assert [p[0]] + (p[1..] + Split(q, sep)[0]) == p + Split(q, sep)[0];
    } else {
      var r := Split(q, sep);
      assert p + q == q && p + r[0] == r[0];
      assert [r[0]] + r[1..] == r;
    }
  }

  /** Splitting a join recovers the parts, provided no part holds the
      separator and there is at least one part (`b''.split(b',')` is `[b'']`,
      never `[]`). */
  lemma {:induction false} SplitJoin(parts: seq<Bytes>, sep: byte)
    requires |parts| >= 1
    requires forall i :: 0 <= i < |parts| ==> sep !in parts[i]
    ensures Split(Join(parts, sep), sep) == parts
    decreases |parts|
  {
    if |parts| == 1 {
      SplitNoSep(parts[0], [], sep);
      assert parts[0] + [] == parts[0];
    } else {
      var tail := Join(parts[1..], sep);
      SplitJoin(parts[1..], sep);
      assert Join(parts, sep) == parts[0] + ([sep] + tail);
      SplitNoSep(parts[0], [sep] + tail, sep);
      assert ([sep] + tail)[1..] == tail;
      assert Split([sep] + tail, sep) == [[]] + parts[1..];
      assert parts[0] + [] == parts[0];
    }
  }
}
