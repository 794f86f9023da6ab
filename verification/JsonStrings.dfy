/** JSON string literals: the quoting of `JSON.stringify`, and the two string readers of the
    duplicate-key scanner (the raw-body reader and the escape decoder). */
module JsonStrings {
  import opened Utf16

  // ---------------------------------------------------------------------------------------
  // Hexadecimal
  // ---------------------------------------------------------------------------------------

  predicate IsHex(u: CodeUnit) { 48 <= u <= 57 || 65 <= u <= 70 || 97 <= u <= 102 }

  function HexValue(u: CodeUnit): (n: int)
    requires IsHex(u)
    ensures 0 <= n < 16
  {
    if u <= 57 then u - 48 else if u <= 70 then u - 55 else u - 87
  }

  function HexDigit(n: int): (u: CodeUnit)
    requires 0 <= n < 16
    ensures IsHex(u) && HexValue(u) == n
  {
    if n < 10 then 48 + n else 87 + n
  }

  function Hex4(a: CodeUnit, b: CodeUnit, c: CodeUnit, d: CodeUnit): CodeUnit
    requires IsHex(a) && IsHex(b) && IsHex(c) && IsHex(d)
  {
    ((HexValue(a) * 16 + HexValue(b)) * 16 + HexValue(c)) * 16 + HexValue(d)
  }

  // ---------------------------------------------------------------------------------------
  // Quoting (`JSON.stringify` of a string)
  // ---------------------------------------------------------------------------------------

  function UnicodeEscape(u: CodeUnit): (r: Text)
  {
    [BACKSLASH, 117, HexDigit(u / 4096), HexDigit(u / 256 % 16), HexDigit(u / 16 % 16), HexDigit(u % 16)]
  }

  /** The letter after the backslash in a two-unit escape of `u`, or 0 when there is none. */
  function ShortEscape(u: CodeUnit): CodeUnit
  {
    if u == 8 then 98 else if u == 9 then 116 else if u == 10 then 110
    else if u == 12 then 102 else if u == 13 then 114
    else if u == QUOTE then QUOTE else if u == BACKSLASH then BACKSLASH else 0
  }

  function EscapeUnit(u: CodeUnit): (r: Text)
  {
    if ShortEscape(u) != 0 then [BACKSLASH, ShortEscape(u)]
    else if u < 0x20 || IsHigh(u) || IsLow(u) then UnicodeEscape(u)
    else [u]
  }

  /** Surrogate pairs are emitted raw, lone surrogates escaped. */
  function QuoteBody(s: Text): (r: Text)
  {
    if |s| == 0 then []
    else if |s| >= 2 && IsHigh(s[0]) && IsLow(s[1]) then [s[0], s[1]] + QuoteBody(s[2..])
    else EscapeUnit(s[0]) + QuoteBody(s[1..])
  }

  function Quote(s: Text): (r: Text)
    ensures |r| >= 2 && r[0] == QUOTE
  {
    [QUOTE] + QuoteBody(s) + [QUOTE]
  }

  // ---------------------------------------------------------------------------------------
  // Reading
  // ---------------------------------------------------------------------------------------

  /** The scanner's inner loop: from just after an opening quote, the raw body up to the closing
      quote (escapes kept as two units) and the text after it. */
  function ReadString(t: Text): (r: (Text, Text))
    ensures |r.1| <= |t|
  {
    if |t| == 0 then ([], [])
    else if t[0] == QUOTE then ([], t[1..])
    else if t[0] == BACKSLASH && |t| >= 2 then
      var (b, rest) := ReadString(t[2..]);
      (t[..2] + b, rest)
    else
      var (b, rest) := ReadString(t[1..]);
      (t[..1] + b, rest)
  }

  /** The unit a two-unit escape stands for, keyed by its letter; -1 when it is not one. */
  function SimpleEscape(c: CodeUnit): (r: int)
    ensures -1 <= r < 0x80
  {
    if c == QUOTE then QUOTE else if c == BACKSLASH then BACKSLASH else if c == 47 then 47
    else if c == 98 then 8 else if c == 102 then 12 else if c == 110 then 10
    else if c == 114 then 13 else if c == 116 then 9 else -1
  }

  /** The first unit read from a string body, and how far it reads; a malformed escape is kept
      verbatim. */
  function FirstUnit(t: Text): (r: (CodeUnit, nat))
    requires |t| > 0
    ensures 1 <= r.1 <= |t|
  {
    if t[0] != BACKSLASH then (t[0], 1)
    else if |t| >= 6 && t[1] == 117 && IsHex(t[2]) && IsHex(t[3]) && IsHex(t[4]) && IsHex(t[5]) then
      (Hex4(t[2], t[3], t[4], t[5]), 6)
    else if |t| >= 2 && SimpleEscape(t[1]) >= 0 then (SimpleEscape(t[1]), 2)
    else (t[0], 1)
  }

  /** `decodeJsonStringBody`. */
  function Decode(body: Text): (r: Text)
    decreases |body|
  {
    if |body| == 0 then []
    else
      var (u, n) := FirstUnit(body);
      [u] + Decode(body[n..])
  }

  lemma UnfoldDecode(t: Text)
    requires |t| > 0
    ensures Decode(t) == [FirstUnit(t).0] + Decode(t[FirstUnit(t).1..])
  {
    hide FirstUnit;
  }

  // ---------------------------------------------------------------------------------------
  // Round trip
  // ---------------------------------------------------------------------------------------

  lemma FourDigits(u: CodeUnit)
    ensures ((u / 4096 * 16 + u / 256 % 16) * 16 + u / 16 % 16) * 16 + u % 16 == u
  {
    assert u / 256 == u / 4096 * 16 + u / 256 % 16;
    assert u / 16 == u / 256 * 16 + u / 16 % 16;
  }

  lemma HexRoundTrip(u: CodeUnit, a: CodeUnit, b: CodeUnit, c: CodeUnit, d: CodeUnit)
    requires a == HexDigit(u / 4096) && b == HexDigit(u / 256 % 16)
    requires c == HexDigit(u / 16 % 16) && d == HexDigit(u % 16)
    ensures Hex4(a, b, c, d) == u
  {
    FourDigits(u);
    var h := Hex4(a, b, c, d);
    assert h == ((HexValue(a) * 16 + HexValue(b)) * 16 + HexValue(c)) * 16 + HexValue(d);
  }

  lemma DecodeEscaped(u: CodeUnit, rest: Text)
    ensures Decode(UnicodeEscape(u) + rest) == [u] + Decode(rest)
  {
    var t := UnicodeEscape(u) + rest;
    assert t[6..] == rest;
    HexRoundTrip(u, t[2], t[3], t[4], t[5]);
  }

  lemma DecodeUnit(u: CodeUnit, rest: Text)
    ensures Decode(EscapeUnit(u) + rest) == [u] + Decode(rest)
  {
    var e := EscapeUnit(u);
    if e == UnicodeEscape(u) {
      DecodeEscaped(u, rest);
    } else {
      assert (e + rest)[|e|..] == rest;
    }
  }

  lemma {:induction false} ReadPlainRun(p: Text, rest: Text)
    requires forall i | 0 <= i < |p| :: p[i] != QUOTE && p[i] != BACKSLASH
    ensures ReadString(p + rest) == (p + ReadString(rest).0, ReadString(rest).1)
  {
    if |p| == 0 {
      assert p + rest == rest && p + ReadString(rest).0 == ReadString(rest).0;
    } else {
      var t := p + rest;
      assert t[1..] == p[1..] + rest && t[..1] == [p[0]];
      ReadPlainRun(p[1..], rest);
      assert [p[0]] + (p[1..] + ReadString(rest).0) == p + ReadString(rest).0;
    }
  }

  lemma ReadEscape(c: CodeUnit, rest: Text)
    ensures ReadString([BACKSLASH, c] + rest) == ([BACKSLASH, c] + ReadString(rest).0, ReadString(rest).1)
  {
    var t := [BACKSLASH, c] + rest;
    assert t[2..] == rest && t[..2] == [BACKSLASH, c];
  }

  lemma ReadUnit(u: CodeUnit, rest: Text)
    ensures ReadString(EscapeUnit(u) + rest) == (EscapeUnit(u) + ReadString(rest).0, ReadString(rest).1)
  {
    hide ReadString;
    var e := EscapeUnit(u);
    if |e| == 6 {
      hide HexDigit;
      var hex := e[2..];
      assert forall i | 0 <= i < 4 :: IsHex(hex[i]);
      assert e + rest == [BACKSLASH, 117] + (hex + rest);
      ReadEscape(117, hex + rest);
      ReadPlainRun(hex, rest);
      assert e == [BACKSLASH, 117] + hex;
      assert [BACKSLASH, 117] + (hex + ReadString(rest).0) == e + ReadString(rest).0;
    } else if |e| == 2 {
      ReadEscape(e[1], rest);
    } else {
      ReadPlainRun(e, rest);
    }
  }

  lemma ReadClose(rest: Text)
    ensures ReadString([QUOTE] + rest) == ([], rest)
    ensures Decode([]) == []
  {
  }

  lemma DecodePair(a: CodeUnit, b: CodeUnit, rest: Text)
    requires a != BACKSLASH && b != BACKSLASH
    ensures Decode([a, b] + rest) == [a, b] + Decode(rest)
  {
    var t := [a, b] + rest;
    assert t[1..] == [b] + rest && t[1..][1..] == rest;
  }

  /** Quoting then reading gives the body back and stops exactly at the closing quote;
      decoding that body gives the string back. So quoted strings are a prefix-free code. */
  lemma {:induction false} QuoteRoundTrip(s: Text, rest: Text)
    ensures ReadString(QuoteBody(s) + [QUOTE] + rest) == (QuoteBody(s), rest)
    ensures Decode(QuoteBody(s)) == s
  {
    hide ReadString, Decode, EscapeUnit;
    var t := QuoteBody(s) + [QUOTE] + rest;
    if |s| == 0 {
      assert t == [QUOTE] + rest;
      ReadClose(rest);
    } else if |s| >= 2 && IsHigh(s[0]) && IsLow(s[1]) {
      QuoteRoundTrip(s[2..], rest);
      var t2 := QuoteBody(s[2..]) + [QUOTE] + rest;
      assert t == [s[0], s[1]] + t2;
      ReadPlainRun([s[0], s[1]], t2);
      DecodePair(s[0], s[1], QuoteBody(s[2..]));
      assert s == [s[0], s[1]] + s[2..];
    } else {
      QuoteRoundTrip(s[1..], rest);
      var t1 := QuoteBody(s[1..]) + [QUOTE] + rest;
      assert t == EscapeUnit(s[0]) + t1;
      ReadUnit(s[0], t1);
      DecodeUnit(s[0], QuoteBody(s[1..]));
      assert s == [s[0]] + s[1..];
    }
  }

  lemma QuotePrefixFree(a: Text, b: Text, s: Text, t: Text)
    requires Quote(a) + s == Quote(b) + t
    ensures a == b && s == t
  {
    hide ReadString, Decode, QuoteBody;
    QuoteRoundTrip(a, s);
    QuoteRoundTrip(b, t);
    var x := Quote(a) + s;
    assert x[1..] == QuoteBody(a) + [QUOTE] + s;
    assert x[1..] == QuoteBody(b) + [QUOTE] + t;
  }
}
