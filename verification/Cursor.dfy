/** The list cursor: base64url over the UTF-8 bytes of a small JSON object, decoded leniently and then
    validated field by field, and the listing that hands such cursors out. */
module Cursor {
  import opened Wrappers
  import opened Utf16
  import opened CanonicalJson
  import JS = JsonStrings
  import AuditAppend
  import opened Paging

  type Byte = b: int | 0 <= b < 256

  // ---------------------------------------------------------------------------------------
  // base64url (section 5 of RFC 4648), unpadded
  // ---------------------------------------------------------------------------------------

  type Sextet = v: int | 0 <= v < 64

  function Digit(v: Sextet): CodeUnit
  {
    if v < 26 then 65 + v else if v < 52 then 97 + (v - 26) else if v < 62 then 48 + (v - 52)
    else if v == 62 then 45 else 95
  }

  /** The decoder also reads the two digits of plain base64; anything else is -1 and is skipped. */
  function Value(u: CodeUnit): (v: int)
    ensures -1 <= v < 64
  {
    if 65 <= u <= 90 then u - 65 else if 97 <= u <= 122 then u - 97 + 26 else if 48 <= u <= 57 then u - 48 + 52
    else if u == 45 || u == 43 then 62 else if u == 95 || u == 47 then 63 else -1
  }

  function Encode64(bs: seq<Byte>): Text
  {
    if |bs| == 0 then []
    else if |bs| == 1 then [Digit(bs[0] / 4), Digit(bs[0] % 4 * 16)]
    else if |bs| == 2 then [Digit(bs[0] / 4), Digit(bs[0] % 4 * 16 + bs[1] / 16), Digit(bs[1] % 16 * 4)]
    else
      [Digit(bs[0] / 4), Digit(bs[0] % 4 * 16 + bs[1] / 16), Digit(bs[1] % 16 * 4 + bs[2] / 64), Digit(bs[2] % 64)]
      + Encode64(bs[3..])
  }

  function Sextets(t: Text): seq<Sextet>
  {
    if |t| == 0 then [] else (if Value(t[0]) >= 0 then [Value(t[0])] else []) + Sextets(t[1..])
  }

  function Byte1(a: Sextet, b: Sextet): Byte { a as int * 4 + b as int / 16 }

  function Byte2(b: Sextet, c: Sextet): Byte { b as int % 16 * 16 + c as int / 4 }

  function Byte3(c: Sextet, d: Sextet): Byte { c as int % 4 * 64 + d as int }

  function Bytes64(vs: seq<Sextet>): seq<Byte>
  {
    if |vs| <= 1 then []
    else if |vs| == 2 then [Byte1(vs[0], vs[1])]
    else if |vs| == 3 then [Byte1(vs[0], vs[1]), Byte2(vs[1], vs[2])]
    else [Byte1(vs[0], vs[1]), Byte2(vs[1], vs[2]), Byte3(vs[2], vs[3])] + Bytes64(vs[4..])
  }

  /** `Buffer.from(raw, 'base64url')`: characters outside the alphabet are dropped. */
  function Decode64(t: Text): seq<Byte> { Bytes64(Sextets(t)) }

  /** A text in the alphabet of plain base64. */
  function Plain64(t: Text): Text
  {
    seq(|t|, i requires 0 <= i < |t| => if t[i] == 45 then 43 else if t[i] == 95 then 47 else t[i])
  }

  /** A character of one of the two alphabets. */
  predicate Carries(u: CodeUnit)
  {
    || 'A' as int <= u <= 'Z' as int || 'a' as int <= u <= 'z' as int || '0' as int <= u <= '9' as int
    || u == '-' as int || u == '_' as int || u == '+' as int || u == '/' as int
  }

  /** The decoder reads both alphabets alike, and skips exactly the characters of neither. */
  lemma {:induction false} EitherAlphabet(t: Text)
    ensures Sextets(Plain64(t)) == Sextets(t)
    ensures |Sextets(t)| == |t| <==> forall i | 0 <= i < |t| :: Carries(t[i])
  {
    if |t| > 0 {
      EitherAlphabet(t[1..]);
      assert Plain64(t)[1..] == Plain64(t[1..]);
      SextetsShorter(t[1..]);
      assert forall i | 0 < i < |t| :: t[i] == t[1..][i - 1];
    }
  }

  lemma {:induction false} SextetsShorter(t: Text)
    ensures |Sextets(t)| <= |t|
  {
    if |t| > 0 { SextetsShorter(t[1..]); }
  }

  lemma DigitValue(v: Sextet)
    ensures Value(Digit(v)) == v
  {
  }

  lemma SextetsDigit(v: Sextet, rest: Text)
    ensures Sextets([Digit(v)] + rest) == [v] + Sextets(rest)
  {
    DigitValue(v);
    assert ([Digit(v)] + rest)[1..] == rest;
  }

  lemma Sextets4(a: Sextet, b: Sextet, c: Sextet, d: Sextet, rest: Text)
    ensures Sextets([Digit(a), Digit(b), Digit(c), Digit(d)] + rest) == [a, b, c, d] + Sextets(rest)
  {
    hide Digit, Sextets;
    SextetsDigit(d, rest);
    SextetsDigit(c, [Digit(d)] + rest);
    SextetsDigit(b, [Digit(c)] + ([Digit(d)] + rest));
    SextetsDigit(a, [Digit(b)] + ([Digit(c)] + ([Digit(d)] + rest)));
    assert [Digit(a), Digit(b), Digit(c), Digit(d)] + rest
           == [Digit(a)] + ([Digit(b)] + ([Digit(c)] + ([Digit(d)] + rest)));
  }

  lemma Sextets23(a: Sextet, b: Sextet, c: Sextet)
    ensures Sextets([Digit(a), Digit(b)]) == [a, b]
    ensures Sextets([Digit(a), Digit(b), Digit(c)]) == [a, b, c]
  {
    hide Digit;
    SextetsDigit(c, []);
    SextetsDigit(b, []);
    SextetsDigit(b, [Digit(c)]);
    SextetsDigit(a, [Digit(b)]);
    SextetsDigit(a, [Digit(b), Digit(c)]);
    assert [Digit(c)] + [] == [Digit(c)] && [Digit(b)] + [] == [Digit(b)];
    assert [Digit(a), Digit(b)] == [Digit(a)] + [Digit(b)] && [Digit(b), Digit(c)] == [Digit(b)] + [Digit(c)];
    assert [Digit(a), Digit(b), Digit(c)] == [Digit(a)] + [Digit(b), Digit(c)];
  }

  lemma Triple(x: Byte, y: Byte, z: Byte)
    ensures x / 4 * 4 + (x % 4 * 16 + y / 16) / 16 == x
    ensures (x % 4 * 16 + y / 16) % 16 * 16 + (y % 16 * 4 + z / 64) / 4 == y
    ensures (y % 16 * 4 + z / 64) % 4 * 64 + z % 64 == z
  {
    assert (x % 4 * 16 + y / 16) / 16 == x % 4 && (x % 4 * 16 + y / 16) % 16 == y / 16;
    assert (y % 16 * 4 + z / 64) / 4 == y % 16 && (y % 16 * 4 + z / 64) % 4 == z / 64;
  }

  lemma Tails(x: Byte, y: Byte)
    ensures Decode64(Encode64([x])) == [x]
    ensures Decode64(Encode64([x, y])) == [x, y]
  {
    hide Digit, Sextets;
    Sextets23(x / 4, x % 4 * 16, 0);
    Sextets23(x / 4, x % 4 * 16 + y / 16, y % 16 * 4);
    Triple(x, 0, 0);
    Triple(x, y, 0);
  }

  lemma Group(x: Byte, y: Byte, z: Byte, rest: seq<Byte>)
    requires Decode64(Encode64(rest)) == rest
    ensures Decode64(Encode64([x, y, z] + rest)) == [x, y, z] + rest
  {
    hide Digit, Sextets;
    var a, b, c, d := x / 4, x % 4 * 16 + y / 16, y % 16 * 4 + z / 64, z % 64;
    assert ([x, y, z] + rest)[3..] == rest;
    Sextets4(a, b, c, d, Encode64(rest));
    Triple(x, y, z);
    var vs := Sextets(Encode64(rest));
    assert ([a, b, c, d] + vs)[4..] == vs;
  }

  /** Decoding an encoding gives the bytes back, whatever they are. */
  lemma {:induction false} Decode64Encode64(bs: seq<Byte>)
    ensures Decode64(Encode64(bs)) == bs
  {
    hide Decode64, Encode64;
    if |bs| == 0 {
      NoSextets();
      assert bs == [];
    } else if |bs| == 1 {
      Tails(bs[0], 0);
      assert bs == [bs[0]];
    } else if |bs| == 2 {
      Tails(bs[0], bs[1]);
      assert bs == [bs[0], bs[1]];
    } else {
      Decode64Encode64(bs[3..]);
      Group(bs[0], bs[1], bs[2], bs[3..]);
      assert bs == [bs[0], bs[1], bs[2]] + bs[3..];
    }
  }

  lemma NoSextets()
    ensures Decode64(Encode64([])) == []
  {
  }

  lemma {:induction false} Encode64Length(bs: seq<Byte>)
    ensures |Encode64(bs)| <= |bs| / 3 * 4 + 3
    ensures |bs| > 0 ==> |Encode64(bs)| > 0
  {
    if |bs| >= 3 { Encode64Length(bs[3..]); }
  }

  // ---------------------------------------------------------------------------------------
  // The timestamps the store can render
  // ---------------------------------------------------------------------------------------

  predicate IsDigit(u: CodeUnit) { 48 <= u <= 57 }

  function Num2(t: Text, i: nat): int
    requires i + 2 <= |t|
  {
    (t[i] as int - 48) * 10 + (t[i + 1] as int - 48)
  }

  predicate Digits(t: Text, i: nat, n: nat)
  {
    i + n <= |t| && forall k | i <= k < i + n :: IsDigit(t[k])
  }

  function DaysInMonth(year: int, month: int): (n: int)
    ensures 28 <= n <= 31
  {
    if month == 2 then (if year % 4 == 0 && (year % 100 != 0 || year % 400 == 0) then 29 else 28)
    else if month == 4 || month == 6 || month == 9 || month == 11 then 30 else 31
  }

  /** The optional fraction: how many characters it takes, 0 when there is none. */
  function FractionLength(t: Text, i: nat): nat
  {
    if i < |t| && t[i] == 46 then 1 + DigitRun(t, i + 1) else 0
  }

  function DigitRun(t: Text, i: nat): nat
    decreases |t| - i
  {
    if i < |t| && IsDigit(t[i]) then 1 + DigitRun(t, i + 1) else 0
  }

  predicate ColonPair(t: Text, i: nat)
  {
    i + 3 <= |t| && t[i] == COLON && Digits(t, i + 1, 2)
  }

  /** The displacement from `i` to the end: a sign, two digits, and up to two colon pairs. */
  predicate OffsetOk(t: Text, i: nat)
  {
    && i + 3 <= |t| && (t[i] == 43 || t[i] == 45) && Digits(t, i + 1, 2) && Num2(t, i + 1) <= 15
    && (|t| == i + 3
        || (|t| == i + 6 && ColonPair(t, i + 3) && Num2(t, i + 4) <= 59)
        || (|t| == i + 9 && ColonPair(t, i + 3) && ColonPair(t, i + 6) && Num2(t, i + 4) <= 59 && Num2(t, i + 7) <= 59))
  }

  /** The shape and the bounds of date and time in the first nineteen characters. */
  predicate DateTimeOk(t: Text)
  {
    && |t| >= 19 && Digits(t, 0, 4) && t[4] == 45 && Digits(t, 5, 2) && t[7] == 45 && Digits(t, 8, 2) && t[10] == 32
    && Digits(t, 11, 2) && t[13] == COLON && Digits(t, 14, 2) && t[16] == COLON && Digits(t, 17, 2)
    && var year := Num2(t, 0) * 100 + Num2(t, 2);
    var month, day := Num2(t, 5), Num2(t, 8);
    && year >= 1 && 1 <= month <= 12 && 1 <= day <= DaysInMonth(year, month)
    && Num2(t, 11) <= 23 && Num2(t, 14) <= 59 && Num2(t, 17) <= 59
  }

  /** `isStoreEmittableTimestamptz`. */
  predicate IsStoreEmittable(t: Text)
  {
    && DateTimeOk(t)
    && var f := FractionLength(t, 19);
    && f != 1 && f <= 7 && OffsetOk(t, 19 + f)
  }

  /** A rendered timestamp by its fields: the fraction is empty or one to six digits, the displacement
      has hours, or hours and minutes, or all three. */
  datatype Stamp = Stamp(
    year: nat, month: nat, day: nat, hour: nat, minute: nat, second: nat, fraction: Text, east: bool,
    offHour: nat, offMinute: Option<nat>, offSecond: Option<nat>)

  predicate ValidStamp(s: Stamp)
  {
    && 1 <= s.year <= 9999 && 1 <= s.month <= 12 && 1 <= s.day <= DaysInMonth(s.year, s.month)
    && s.hour <= 23 && s.minute <= 59 && s.second <= 59
    && |s.fraction| <= 6 && Digits(s.fraction, 0, |s.fraction|)
    && s.offHour <= 15 && (s.offMinute.Some? ==> s.offMinute.value <= 59)
    && (s.offSecond.Some? ==> s.offMinute.Some? && s.offSecond.value <= 59)
  }

  function Two(n: nat): Text
    requires n <= 99
  {
    [48 + n / 10, 48 + n % 10]
  }

  function FractionText(s: Stamp): Text { if s.fraction == [] then [] else [46] + s.fraction }

  function OffsetText(s: Stamp): Text
    requires ValidStamp(s)
  {
    [if s.east then 43 else 45] + Two(s.offHour)
    + (if s.offMinute.Some? then [COLON] + Two(s.offMinute.value) else [])
    + (if s.offSecond.Some? then [COLON] + Two(s.offSecond.value) else [])
  }

  function DateText(s: Stamp): (t: Text)
    requires ValidStamp(s)
    ensures |t| == 19
  {
    Two(s.year / 100) + Two(s.year % 100) + [45] + Two(s.month) + [45] + Two(s.day) + [32]
    + Two(s.hour) + [COLON] + Two(s.minute) + [COLON] + Two(s.second)
  }

  function RenderStamp(s: Stamp): Text
    requires ValidStamp(s)
  {
    DateText(s) + FractionText(s) + OffsetText(s)
  }

  lemma {:induction false} RunOf(f: Text, rest: Text, before: Text)
    requires Digits(f, 0, |f|) && (|rest| > 0 ==> !IsDigit(rest[0]))
    ensures DigitRun(before + f + rest, |before|) == |f|
    decreases |f|
  {
    var t := before + f + rest;
    if |f| > 0 {
      assert t[|before|] == f[0];
      RunOf(f[1..], rest, before + [f[0]]);
      assert before + [f[0]] + f[1..] + rest == t;
    } else {
      assert |rest| > 0 ==> t[|before|] == rest[0];
    }
  }

  /** What the store renders is accepted. */
  lemma RenderedIsEmittable(s: Stamp)
    requires ValidStamp(s)
    ensures IsStoreEmittable(RenderStamp(s))
  {
    hide ValidStamp, DateTimeOk, OffsetOk, DateText, OffsetText, FractionLength;
    var f := FractionText(s);
    DateOk(s, f + OffsetText(s));
    assert DateText(s) + (f + OffsetText(s)) == RenderStamp(s);
    FractionRendered(s);
    OffsetRendered(s, DateText(s) + f);
  }

  lemma FractionRendered(s: Stamp)
    requires ValidStamp(s)
    ensures FractionLength(RenderStamp(s), 19) == |FractionText(s)| <= 7 && |FractionText(s)| != 1
  {
    hide DaysInMonth, DateText, Two;
    var t := RenderStamp(s);
    if |s.fraction| > 0 {
      RunOf(s.fraction, OffsetText(s), DateText(s) + [46]);
      assert DateText(s) + [46] + s.fraction + OffsetText(s) == t;
    } else {
      assert t[19] == OffsetText(s)[0];
    }
  }

  lemma TwoDigits(t: Text, i: nat, n: nat)
    requires i + 2 <= |t| && n <= 99 && [t[i], t[i + 1]] == Two(n)
    ensures Digits(t, i, 2) && Num2(t, i) == n
  {
    assert [t[i], t[i + 1]][0] == Two(n)[0] && [t[i], t[i + 1]][1] == Two(n)[1];
    assert IsDigit(t[i]) && IsDigit(t[i + 1]);
  }

  lemma DatePlaces(s: Stamp, rest: Text)
    requires ValidStamp(s)
    ensures var t := DateText(s) + rest;
            && |t| >= 19 && [t[0], t[1]] == Two(s.year / 100) && [t[2], t[3]] == Two(s.year % 100)
            && [t[5], t[6]] == Two(s.month)
            && [t[8], t[9]] == Two(s.day) && [t[11], t[12]] == Two(s.hour) && [t[14], t[15]] == Two(s.minute)
            && [t[17], t[18]] == Two(s.second)
            && t[4] == 45 && t[7] == 45 && t[10] == 32 && t[13] == COLON && t[16] == COLON
  {
    hide DaysInMonth;
  }

  lemma DateOk(s: Stamp, rest: Text)
    requires ValidStamp(s)
    ensures DateTimeOk(DateText(s) + rest)
  {
    hide DaysInMonth, Two, Num2, DateText;
    var t := DateText(s) + rest;
    DatePlaces(s, rest);
    TwoDigits(t, 0, s.year / 100);
    TwoDigits(t, 2, s.year % 100);
    TwoDigits(t, 5, s.month);
    TwoDigits(t, 8, s.day);
    TwoDigits(t, 11, s.hour);
    TwoDigits(t, 14, s.minute);
    TwoDigits(t, 17, s.second);
    assert Digits(t, 0, 4);
  }

  lemma OffsetRendered(s: Stamp, before: Text)
    requires ValidStamp(s)
    ensures OffsetOk(before + OffsetText(s), |before|)
  {
    hide DaysInMonth;
    var t, i := before + OffsetText(s), |before|;
    var o := OffsetText(s);
    assert t[i] == o[0] && [t[i + 1], t[i + 2]] == Two(s.offHour);
    hide Two, Num2, OffsetText;
    TwoDigits(t, i + 1, s.offHour);
    if s.offMinute.Some? {
      OffsetPlaces(s, before);
      TwoDigits(t, i + 4, s.offMinute.value);
      if s.offSecond.Some? { TwoDigits(t, i + 7, s.offSecond.value); }
    }
    OffsetPlaces(s, before);
  }

  lemma OffsetPlaces(s: Stamp, before: Text)
    requires ValidStamp(s)
    ensures var t, i := before + OffsetText(s), |before|;
            && |t| == i + 3 + (if s.offMinute.Some? then 3 else 0) + (if s.offSecond.Some? then 3 else 0)
            && (s.offMinute.Some? ==> t[i + 3] == COLON && [t[i + 4], t[i + 5]] == Two(s.offMinute.value))
            && (s.offSecond.Some? ==> t[i + 6] == COLON && [t[i + 7], t[i + 8]] == Two(s.offSecond.value))
  {
    hide DaysInMonth;
  }

  /** The fields an accepted text is read into. */
  function StampOf(t: Text): Stamp
    requires IsStoreEmittable(t)
  {
    var o := 19 + FractionLength(t, 19);
    DigitRunEnds(t, 20);
    FieldsOk(t);
    Stamp(
      Num2(t, 0) * 100 + Num2(t, 2), Num2(t, 5), Num2(t, 8), Num2(t, 11), Num2(t, 14), Num2(t, 17),
      if o == 19 then [] else t[20..o], t[o] == 43, Num2(t, o + 1),
      if |t| > o + 3 then Some(Num2(t, o + 4)) else None, if |t| > o + 6 then Some(Num2(t, o + 7)) else None)
  }

  lemma FieldsOk(t: Text)
    requires IsStoreEmittable(t)
    ensures var o := 19 + FractionLength(t, 19);
            && 19 <= o && o + 3 <= |t| && Num2(t, 0) * 100 + Num2(t, 2) >= 0 && Num2(t, 5) >= 0 && Num2(t, 8) >= 0
            && Num2(t, 11) >= 0 && Num2(t, 14) >= 0 && Num2(t, 17) >= 0 && Num2(t, o + 1) >= 0
            && (|t| > o + 3 ==> o + 6 <= |t| && Num2(t, o + 4) >= 0)
            && (|t| > o + 6 ==> o + 9 <= |t| && Num2(t, o + 7) >= 0)
            && (o > 19 ==> o >= 20)
  {
    hide DaysInMonth, Num2;
    var o := 19 + FractionLength(t, 19);
    YearDigits(t);
    TwoBack(t, 5);
    TwoBack(t, 8);
    TwoBack(t, 11);
    TwoBack(t, 14);
    TwoBack(t, 17);
    TwoBack(t, o + 1);
    if |t| > o + 3 { TwoBack(t, o + 4); }
    if |t| > o + 6 { TwoBack(t, o + 7); }
  }

  lemma StampValid(t: Text)
    requires IsStoreEmittable(t)
    ensures ValidStamp(StampOf(t))
  {
    hide DaysInMonth, Num2, DigitRun;
    FieldsOk(t);
    DigitRunEnds(t, 20);
    YearDigits(t);
    FractionDigits(t);
  }

  lemma FractionDigits(t: Text)
    requires IsStoreEmittable(t)
    ensures var o := 19 + FractionLength(t, 19); o > 19 ==> o <= |t| && Digits(t[20..o], 0, o - 20) && o - 20 <= 6
  {
    hide DaysInMonth, Num2;
    DigitRunEnds(t, 20);
  }

  /** What is accepted is what the store renders for some timestamp. */
  lemma EmittableIsRendered(t: Text)
    requires IsStoreEmittable(t)
    ensures ValidStamp(StampOf(t)) && RenderStamp(StampOf(t)) == t
  {
    hide StampOf, ValidStamp, IsStoreEmittable, DateText, OffsetText, FractionText, FractionLength;
    StampValid(t);
    PartsBack(t);
    var o := 19 + FractionLength(t, 19);
    assert t == t[..19] + t[19..o] + t[o..];
  }

  lemma PartsBack(t: Text)
    requires IsStoreEmittable(t) && ValidStamp(StampOf(t))
    ensures var o := 19 + FractionLength(t, 19);
            && o <= |t| && DateText(StampOf(t)) == t[..19] && FractionText(StampOf(t)) == t[19..o]
            && OffsetText(StampOf(t)) == t[o..]
  {
    FractionBack(t);
    hide DaysInMonth, Num2, Two, DateText, OffsetText, FractionText, FractionLength, Digits, ValidStamp;
    DateBack(t, StampOf(t));
    OffsetBack(t, 19 + FractionLength(t, 19), StampOf(t));
  }

  lemma FractionBack(t: Text)
    requires IsStoreEmittable(t)
    ensures var o := 19 + FractionLength(t, 19); o <= |t| && FractionText(StampOf(t)) == t[19..o]
  {
    hide DaysInMonth, Num2, DateTimeOk, DigitRun;
    FieldsOk(t);
    var o := 19 + FractionLength(t, 19);
    if o > 19 { assert t[19..o] == [46] + t[20..o] && |t[20..o]| > 0; }
  }

  lemma TwoBack(t: Text, i: nat)
    requires Digits(t, i, 2)
    ensures 0 <= Num2(t, i) <= 99 && Two(Num2(t, i)) == [t[i], t[i + 1]]
  {
    assert IsDigit(t[i]) && IsDigit(t[i + 1]);
  }

  lemma DateBack(t: Text, s: Stamp)
    requires DateTimeOk(t) && ValidStamp(s)
    requires s.year == Num2(t, 0) * 100 + Num2(t, 2) && s.month == Num2(t, 5) && s.day == Num2(t, 8)
    requires s.hour == Num2(t, 11) && s.minute == Num2(t, 14) && s.second == Num2(t, 17)
    ensures DateText(s) == t[..19]
  {
    hide DaysInMonth, Two, Num2;
    YearDigits(t);
    TwoBack(t, 0);
    TwoBack(t, 2);
    TwoBack(t, 5);
    TwoBack(t, 8);
    TwoBack(t, 11);
    TwoBack(t, 14);
    TwoBack(t, 17);
  }

  lemma YearDigits(t: Text)
    requires Digits(t, 0, 4)
    ensures Digits(t, 0, 2) && Digits(t, 2, 2) && 0 <= Num2(t, 0) <= 99 && 0 <= Num2(t, 2) <= 99
    ensures (Num2(t, 0) * 100 + Num2(t, 2)) / 100 == Num2(t, 0) && (Num2(t, 0) * 100 + Num2(t, 2)) % 100 == Num2(t, 2)
  {
    TwoBack(t, 0);
    TwoBack(t, 2);
  }

  lemma OffsetBack(t: Text, o: nat, s: Stamp)
    requires OffsetOk(t, o) && ValidStamp(s) && s.east == (t[o] == 43) && s.offHour == Num2(t, o + 1)
    requires s.offMinute == if |t| > o + 3 then Some(Num2(t, o + 4)) else None
    requires s.offSecond == if |t| > o + 6 then Some(Num2(t, o + 7)) else None
    ensures OffsetText(s) == t[o..]
  {
    hide DaysInMonth, Two, Num2;
    TwoBack(t, o + 1);
    if |t| > o + 3 { TwoBack(t, o + 4); }
    if |t| > o + 6 { TwoBack(t, o + 7); }
  }

  // ---------------------------------------------------------------------------------------
  // The codec
  // ---------------------------------------------------------------------------------------

  datatype Position = Position(updatedAt: Text, id: Text)

  /** Uninterpreted: UTF-8 in both directions, `JSON.parse`, and the database's reading of a timestamp. */
  datatype Codec = Codec(
    utf8: Text -> seq<Byte>, fromUtf8: seq<Byte> -> Text, parse: Text -> Option<Json>, instant: Text -> int)

  predicate Ascii(t: Text) { forall i | 0 <= i < |t| :: t[i] < 128 }

  /** What UTF-8 and JSON promise: ASCII is one byte each and comes back, and the text of a position
      parses to that position. */
  ghost predicate GoodCodec(c: Codec)
  {
    && (forall t | Ascii(t) :: c.fromUtf8(c.utf8(t)) == t && |c.utf8(t)| == |t|)
    && (forall p :: c.parse(Render(PositionJson(p))) == Some(PositionJson(p)))
  }

  function PositionJson(p: Position): Json
  {
    Obj([Member([118], Num([49])), Member([117], Str(p.updatedAt)), Member([105], Str(p.id))])
  }

  lemma PositionJsonInjective(p: Position, q: Position)
    requires Render(PositionJson(p)) == Render(PositionJson(q))
    ensures p == q
  {
    hide Render;
    PositionJsonPlain(p);
    PositionJsonPlain(q);
    RenderPrefixFree(PositionJson(p), PositionJson(q), [], []);
    assert PositionJson(p).members[1] == PositionJson(q).members[1];
    assert PositionJson(p).members[2] == PositionJson(q).members[2];
  }

  lemma PositionJsonPlain(p: Position)
    ensures Plain(PositionJson(p)) && WellFormed(PositionJson(p))
  {
    var v: Text, u: Text, i: Text := [118], [117], [105];
    assert v[0] != u[0] && v[0] != i[0] && u[0] != i[0];
  }

  ghost function ParsePosition(t: Text): Option<Json>
  {
    if p :| Render(PositionJson(p)) == t then Some(PositionJson(p)) else None
  }

  /** The assumption can be met, whatever the database reads a timestamp as. */
  lemma GoodCodecExists(instant: Text -> int) returns (c: Codec)
    ensures GoodCodec(c) && c.instant == instant
  {
    hide Render, PositionJson;
    c := Codec(
      t => seq(|t|, i requires 0 <= i < |t| => if t[i] < 128 then t[i] as Byte else 0),
      bytes => seq(|bytes|, i requires 0 <= i < |bytes| => bytes[i] as CodeUnit),
      t => ParsePosition(t), instant);
    forall p ensures c.parse(Render(PositionJson(p))) == Some(PositionJson(p)) {
      var q :| Render(PositionJson(q)) == Render(PositionJson(p))
               && ParsePosition(Render(PositionJson(p))) == Some(PositionJson(q));
      PositionJsonInjective(p, q);
    }
    forall t | Ascii(t) ensures c.fromUtf8(c.utf8(t)) == t && |c.utf8(t)| == |t| { }
  }

  /** `encodeConversationCursor`. */
  function EncodeCursor(c: Codec, p: Position): Text
  {
    Encode64(c.utf8(Render(PositionJson(p))))
  }

  const MAX_CURSOR_LEN: nat := 512

  /** `decodeConversationCursor`. */
  function DecodeCursor(c: Codec, raw: Text): Option<Position>
  {
    if |raw| == 0 || |raw| > MAX_CURSOR_LEN then None
    else
      var parsed := c.parse(c.fromUtf8(Decode64(raw)));
      if parsed.None? || !parsed.value.Obj? then None
      else
        var ms := parsed.value.members;
        var v, u, i := AuditAppend.Find(ms, [118]), AuditAppend.Find(ms, [117]), AuditAppend.Find(ms, [105]);
        if v != Some(Num([49])) then None
        else if u.None? || !u.value.Str? || !IsStoreEmittable(u.value.s) then None
        else if i.None? || !i.value.Str? || !AuditAppend.IsUuid(i.value.s) then None
        else Some(Position(u.value.s, i.value.s))
  }

  /** Nothing that was not validated leaves the decoder. */
  lemma DecodedIsValid(c: Codec, raw: Text)
    requires DecodeCursor(c, raw).Some?
    ensures IsStoreEmittable(DecodeCursor(c, raw).value.updatedAt) && AuditAppend.IsUuid(DecodeCursor(c, raw).value.id)
    ensures 1 <= |raw| <= 512
    ensures var parsed := c.parse(c.fromUtf8(Decode64(raw)));
            && parsed.Some? && parsed.value.Obj?
            && AuditAppend.Find(parsed.value.members, [118]) == Some(Num([49]))
            && AuditAppend.Find(parsed.value.members, [117]) == Some(Str(DecodeCursor(c, raw).value.updatedAt))
            && AuditAppend.Find(parsed.value.members, [105]) == Some(Str(DecodeCursor(c, raw).value.id))
  {
    hide IsStoreEmittable, AuditAppend.IsUuid, Decode64;
  }

  lemma {:induction false} DigitRunEnds(t: Text, i: nat)
    ensures i <= |t| ==> i + DigitRun(t, i) <= |t|
    ensures forall k | i <= k < i + DigitRun(t, i) && k < |t| :: IsDigit(t[k])
    decreases |t| - i
  {
    if i < |t| && IsDigit(t[i]) { DigitRunEnds(t, i + 1); }
  }

  /** A unit that JSON prints as itself. */
  predicate PlainUnit(u: CodeUnit) { 0x20 <= u < 128 && u != QUOTE && u != BACKSLASH }

  lemma EmittablePlain(t: Text)
    requires IsStoreEmittable(t)
    ensures |t| <= 35 && forall k | 0 <= k < |t| :: PlainUnit(t[k])
  {
    var f := FractionLength(t, 19);
    DigitRunEnds(t, 20);
    forall k | 0 <= k < |t| ensures PlainUnit(t[k]) {
      if k < 19 { DatePlain(t, k); }
      else if k < 19 + f { assert k == 19 || IsDigit(t[k]); }
      else { OffsetPlain(t, 19 + f, k); }
    }
  }

  lemma DatePlain(t: Text, k: nat)
    requires DateTimeOk(t) && k < 19
    ensures PlainUnit(t[k])
  {
    hide DaysInMonth;
  }

  lemma OffsetPlain(t: Text, i: nat, k: nat)
    requires OffsetOk(t, i) && i <= k < |t|
    ensures PlainUnit(t[k])
  {
  }

  lemma UuidPlain(t: Text)
    requires AuditAppend.IsUuid(t)
    ensures |t| == 36 && forall k | 0 <= k < |t| :: PlainUnit(t[k])
  {
  }

  lemma {:induction false} QuotePlain(t: Text)
    requires forall k | 0 <= k < |t| :: PlainUnit(t[k])
    ensures JS.QuoteBody(t) == t
  {
    if |t| > 0 {
      assert PlainUnit(t[0]);
      QuotePlain(t[1..]);
      assert t == [t[0]] + t[1..];
    }
  }

  lemma ObjFinds(p: Position)
    ensures var ms := PositionJson(p).members;
            && AuditAppend.Find(ms, [118]) == Some(Num([49])) && AuditAppend.Find(ms, [117]) == Some(Str(p.updatedAt))
            && AuditAppend.Find(ms, [105]) == Some(Str(p.id))
  {
    var ms := PositionJson(p).members;
    var v: Text, u: Text, i: Text := [118], [117], [105];
    assert v[0] != u[0] && v[0] != i[0] && u[0] != i[0];
    assert ms[1..] == [ms[1], ms[2]] && [ms[1], ms[2]][1..] == [ms[2]];
    assert AuditAppend.Find([ms[2]], i) == Some(Str(p.id));
    assert AuditAppend.Find([ms[1], ms[2]], i) == Some(Str(p.id));
  }

  /** The text of a position: no character needs an escape. */
  lemma PositionText(p: Position)
    requires forall k | 0 <= k < |p.updatedAt| :: PlainUnit(p.updatedAt[k])
    requires forall k | 0 <= k < |p.id| :: PlainUnit(p.id[k])
    ensures var t := Render(PositionJson(p)); Ascii(t) && |t| == |p.updatedAt| + |p.id| + 21
  {
    var parts := PositionParts(p);
    assert Render(PositionJson(p)) == [LBRACE] + Join(parts) + [RBRACE];
    hide *;
    JoinThree(parts[0], parts[1], parts[2]);
    AsciiJoin(p, parts[0], parts[1], parts[2]);
  }

  lemma PositionParts(p: Position) returns (parts: seq<Text>)
    requires forall k | 0 <= k < |p.updatedAt| :: PlainUnit(p.updatedAt[k])
    requires forall k | 0 <= k < |p.id| :: PlainUnit(p.id[k])
    ensures parts == RenderMembers(PositionJson(p).members) && |parts| == 3
    ensures parts == [parts[0], parts[1], parts[2]]
    ensures parts[0] == [QUOTE, 118, QUOTE, COLON, 49]
    ensures parts[1] == [QUOTE, 117, QUOTE, COLON] + ([QUOTE] + p.updatedAt + [QUOTE])
    ensures parts[2] == [QUOTE, 105, QUOTE, COLON] + ([QUOTE] + p.id + [QUOTE])
  {
    hide JS.QuoteBody, RenderMember, RenderMembers;
    var ms := PositionJson(p).members;
    parts := RenderMembers(ms);
    QuotePlain(p.updatedAt);
    QuotePlain(p.id);
    QuotePlain([118]);
    QuotePlain([117]);
    QuotePlain([105]);
    assert parts[0] == RenderMember(ms[0]) && parts[1] == RenderMember(ms[1]) && parts[2] == RenderMember(ms[2]);
    MemberText([118], [49], p.updatedAt);
    MemberText([117], [49], p.updatedAt);
    MemberText([105], [49], p.id);
  }

  lemma MemberText(k: Text, n: Text, t: Text)
    ensures RenderMember(Member(k, Str(t))) == JS.Quote(k) + [COLON] + JS.Quote(t)
    ensures RenderMember(Member(k, Num(n))) == JS.Quote(k) + [COLON] + n
  {
  }

  lemma JoinThree(a: Text, b: Text, c: Text)
    ensures Join([a, b, c]) == a + [COMMA] + (b + [COMMA] + c)
  {
    assert [a, b, c][1..] == [b, c] && [b, c][1..] == [c];
    assert Join([c]) == c && Join([b, c]) == b + [COMMA] + c;
  }

  lemma AsciiJoin(p: Position, a: Text, b: Text, c: Text)
    requires a == [QUOTE, 118, QUOTE, COLON, 49]
    requires b == [QUOTE, 117, QUOTE, COLON] + ([QUOTE] + p.updatedAt + [QUOTE])
    requires c == [QUOTE, 105, QUOTE, COLON] + ([QUOTE] + p.id + [QUOTE])
    requires forall k | 0 <= k < |p.updatedAt| :: PlainUnit(p.updatedAt[k])
    requires forall k | 0 <= k < |p.id| :: PlainUnit(p.id[k])
    ensures var t := [LBRACE] + (a + [COMMA] + (b + [COMMA] + c)) + [RBRACE];
            Ascii(t) && |t| == |p.updatedAt| + |p.id| + 21
  {
  }

  /** Every cursor the store can emit decodes to itself, byte for byte. */
  lemma CursorRoundTrip(c: Codec, p: Position)
    requires GoodCodec(c) && IsStoreEmittable(p.updatedAt) && AuditAppend.IsUuid(p.id)
    ensures DecodeCursor(c, EncodeCursor(c, p)) == Some(p)
  {
    hide IsStoreEmittable, AuditAppend.IsUuid, Decode64, Encode64, Render, AuditAppend.Find;
    EmittablePlain(p.updatedAt);
    UuidPlain(p.id);
    PositionText(p);
    ObjFinds(p);
    var t := Render(PositionJson(p));
    Decode64Encode64(c.utf8(t));
    Encode64Length(c.utf8(t));
    assert c.fromUtf8(c.utf8(t)) == t && |c.utf8(t)| == |t|;
  }

  // ---------------------------------------------------------------------------------------
  // The listing
  // ---------------------------------------------------------------------------------------

  /** The row a cursor names: the database reads the timestamp and the uuid back. */
  function RowAt(c: Codec, p: Position): Row { Row(c.instant(p.updatedAt), Lower(p.id)) }

  /** The stored rows, with the text the store renders for each instant. */
  ghost predicate GoodRows(c: Codec, s: set<Row>, key: Row -> Text)
  {
    forall r | r in s ::
      IsStoreEmittable(key(r)) && c.instant(key(r)) == r.at && AuditAppend.IsUuid(r.id) && Lower(r.id) == r.id
  }

  function CursorOf(c: Codec, key: Row -> Text, r: Row): Text { EncodeCursor(c, Position(key(r), r.id)) }

  /** A cursor handed out for a row names that row. */
  lemma CursorNames(c: Codec, s: set<Row>, key: Row -> Text, r: Row)
    requires GoodCodec(c) && GoodRows(c, s, key) && r in s
    ensures DecodeCursor(c, CursorOf(c, key, r)).Some?
    ensures RowAt(c, DecodeCursor(c, CursorOf(c, key, r)).value) == r
  {
    hide IsStoreEmittable, AuditAppend.IsUuid, DecodeCursor, EncodeCursor, GoodCodec;
    CursorRoundTrip(c, Position(key(r), r.id));
  }

  datatype Listing = InvalidCursor | Listing(rows: seq<Row>, next: Option<Text>)

  /** `listConversations` of the service. */
  method ListPage(c: Codec, s: set<Row>, key: Row -> Text, raw: Option<Text>, limit: nat) returns (r: Listing)
    ensures r.InvalidCursor? <==> raw.Some? && DecodeCursor(c, raw.value).None?
    ensures r.Listing? ==>
              var at := if raw.None? then None else Some(RowAt(c, DecodeCursor(c, raw.value).value));
              exists p :: IsPage(s, at, limit, p) && r.rows == p.rows
                && r.next == (if NextCursor(p).None? then None else Some(CursorOf(c, key, NextCursor(p).value)))
  {
    hide DecodeCursor, EncodeCursor, IsPage;
    var at: Option<Row> := None;
    if raw.Some? {
      var decoded := DecodeCursor(c, raw.value);
      if decoded.None? { return InvalidCursor; }
      at := Some(RowAt(c, decoded.value));
    }
    var page := ListConversations(s, at, limit);
    var next := NextCursor(page);
    return Listing(page.rows, if next.None? then None else Some(CursorOf(c, key, next.value)));
  }

  /** Where a listing starts: the row its text cursor names. */
  function StartOf(c: Codec, raw: Option<Text>): Option<Row>
    requires raw.Some? ==> DecodeCursor(c, raw.value).Some?
  {
    if raw.None? then None else Some(RowAt(c, DecodeCursor(c, raw.value).value))
  }

  /** A client that follows `next_cursor`, from a cursor or from the start, until it is null: it ends,
      after as many pages as the rows make, and has received every row below its start exactly once, in
      order. */
  method FollowCursors(c: Codec, s: set<Row>, key: Row -> Text, raw: Option<Text>, limit: nat)
    returns (rows: seq<Row>, pages: nat)
    requires GoodCodec(c) && GoodRows(c, s, key) && limit >= 1
    requires raw.Some? ==> DecodeCursor(c, raw.value).Some?
    ensures Lists(Below(s, StartOf(c, raw)), rows)
    ensures pages == PageCount(|Below(s, StartOf(c, raw))|, limit)
    decreases |Below(s, StartOf(c, raw))|
  {
    hide GoodCodec, GoodRows, DecodeCursor, CursorOf, IsPage, Below, Lists, PageCount, RowAt;
    var listing := ListPage(c, s, key, raw, limit);
    ghost var at := StartOf(c, raw);
    ghost var p :| IsPage(s, at, limit, p) && listing.rows == p.rows
      && listing.next == (if NextCursor(p).None? then None else Some(CursorOf(c, key, NextCursor(p).value)));
    PageTakes(s, at, limit, p);
    PageCountStep(|Below(s, at)|, limit);
    if listing.next.None? {
      LastLists(s, at, limit, p);
      return listing.rows, 1;
    }
    LastInSet(s, at, limit, p);
    CursorNames(c, s, key, NextCursor(p).value);
    var rest, more := FollowCursors(c, s, key, listing.next, limit);
    Joined(s, at, limit, p, rest);
    return listing.rows + rest, 1 + more;
  }

  lemma LastLists(s: set<Row>, at: Option<Row>, limit: nat, p: Page)
    requires limit >= 1 && IsPage(s, at, limit, p) && NextCursor(p).None?
    ensures Lists(Below(s, at), p.rows)
  {
    hide Below;
  }

  lemma LastInSet(s: set<Row>, at: Option<Row>, limit: nat, p: Page)
    requires IsPage(s, at, limit, p) && NextCursor(p).Some?
    ensures NextCursor(p).value in s
  {
    assert p.rows[|p.rows| - 1] in p.rows;
  }
}
