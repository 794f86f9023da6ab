/** The duplicate-key scanner `findDuplicateJsonKeys`: a single pass over raw text that must agree
    with the parse tree of every JSON document, whatever its whitespace and string escapes. */
module DuplicateKeys {
  import opened Utf16
  import opened JsonStrings

  // ---------------------------------------------------------------------------------------
  // The scanner
  // ---------------------------------------------------------------------------------------

  /** One stack entry: the key set of an open object, or null for an open array. */
  datatype Context = InObject(keys: set<Text>) | InArray

  predicate TopIsObject(stack: seq<Context>)
  {
    |stack| > 0 && stack[|stack| - 1].InObject?
  }

  function AddKey(stack: seq<Context>, key: Text): seq<Context>
    requires TopIsObject(stack)
  {
    stack[..|stack| - 1] + [InObject(stack[|stack| - 1].keys + {key})]
  }

  function Pop(stack: seq<Context>): seq<Context>
  {
    if |stack| == 0 then [] else stack[..|stack| - 1]
  }

  predicate Special(u: CodeUnit)
  {
    u == QUOTE || u == LBRACE || u == RBRACE || u == LBRACKET || u == RBRACKET || u == COMMA || u == COLON
  }

  /** What the scanner still reports from `t` in a given state. */
  function Scan(t: Text, stack: seq<Context>, expectKey: bool): (dups: seq<Text>)
    decreases |t|
  {
    if |t| == 0 then []
    else if t[0] == QUOTE then
      var (body, rest) := ReadString(t[1..]);
      if TopIsObject(stack) && expectKey then
        var key := Decode(body);
        (if key in stack[|stack| - 1].keys then [key] else []) + Scan(rest, AddKey(stack, key), false)
      else Scan(rest, stack, expectKey)
    else if t[0] == LBRACE then Scan(t[1..], stack + [InObject({})], true)
    else if t[0] == LBRACKET then Scan(t[1..], stack + [InArray], expectKey)
    else if t[0] == RBRACE || t[0] == RBRACKET then Scan(t[1..], Pop(stack), expectKey)
    else if t[0] == COMMA then Scan(t[1..], stack, TopIsObject(stack) || expectKey)
    else if t[0] == COLON then Scan(t[1..], stack, false)
    else Scan(t[1..], stack, expectKey)
  }

  /** `decodeJsonStringBody`. */
  method DecodeJsonStringBody(body: Text) returns (out: Text)
    ensures out == Decode(body)
  {
    hide Decode, Hex4, IsHex, SimpleEscape;
    out := [];
    var i := 0;
    while i < |body|
      invariant 0 <= i <= |body|
      invariant out + Decode(body[i..]) == Decode(body)
    {
      var c := body[i];
      ghost var tail, n := body[i..], FirstUnit(body[i..]).1;
      ghost var was := out;
      UnfoldDecode(tail);
      assert tail[n..] == body[i + n..];
      if c != BACKSLASH {
        out, i := out + [c], i + 1;
      } else if i + 6 <= |body| && body[i + 1] == 117
        && IsHex(body[i + 2]) && IsHex(body[i + 3]) && IsHex(body[i + 4]) && IsHex(body[i + 5])
      {
        out, i := out + [Hex4(body[i + 2], body[i + 3], body[i + 4], body[i + 5])], i + 6;
      } else if i + 2 <= |body| && SimpleEscape(body[i + 1]) >= 0 {
        out, i := out + [SimpleEscape(body[i + 1])], i + 2;
      } else {
        out, i := out + [c], i + 1;
      }
      assert out == was + [FirstUnit(tail).0];
    }
    assert body[i..] == [] && Decode([]) == [] by { DecodeNothing(); }
  }

  lemma DecodeNothing()
    ensures Decode([]) == []
  {
  }

  /** The text from an index on; empty past the end, as `i` may overshoot an unterminated string. */
  function From(raw: Text, i: nat): Text
  {
    if i < |raw| then raw[i..] else []
  }

  /** What the inner loop has still to read, after `body`. */
  function Rest(body: Text, t: Text): (Text, Text)
  {
    (body + ReadString(t).0, ReadString(t).1)
  }

  lemma RestStep(body: Text, raw: Text, j: nat, k: nat)
    requires j < |raw| && raw[j] != QUOTE
    requires k == if raw[j] == BACKSLASH && j + 2 <= |raw| then j + 2 else j + 1
    ensures Rest(body, From(raw, j)) == Rest(body + raw[j..k], From(raw, k))
  {
    var t := raw[j..];
    assert t[k - j..] == From(raw, k) && t[..k - j] == raw[j..k];
    assert body + (raw[j..k] + ReadString(From(raw, k)).0) == body + raw[j..k] + ReadString(From(raw, k)).0;
  }

  /** The inner loop of the scanner: `i` is the index just after an opening quote. */
  method ReadBody(raw: Text, i: nat) returns (body: Text, j: nat)
    requires i <= |raw|
    ensures i <= j
    ensures ReadString(From(raw, i)) == (body, From(raw, j + 1))
  {
    hide ReadString;
    body, j := [], i;
    while j < |raw| && raw[j] != QUOTE
      invariant i <= j
      invariant Rest([], From(raw, i)) == Rest(body, From(raw, j))
      decreases |raw| + 1 - j
    {
      if raw[j] == BACKSLASH {
        var k := if j + 2 <= |raw| then j + 2 else |raw|;
        RestStep(body, raw, j, k);
        body := body + raw[j..k];
        assert From(raw, k) == From(raw, j + 2);
        j := j + 2;
      } else {
        RestStep(body, raw, j, j + 1);
        body := body + [raw[j]];
        assert raw[j..j + 1] == [raw[j]];
        j := j + 1;
      }
    }
    RestEnd(raw, i, body, j);
  }

  lemma RestEnd(raw: Text, i: nat, body: Text, j: nat)
    requires j < |raw| ==> raw[j] == QUOTE
    requires Rest([], From(raw, i)) == Rest(body, From(raw, j))
    ensures ReadString(From(raw, i)) == (body, From(raw, j + 1))
  {
    assert [] + ReadString(From(raw, i)).0 == ReadString(From(raw, i)).0;
    if j < |raw| { assert raw[j..][1..] == From(raw, j + 1); }
    assert ReadString(From(raw, j)) == ([], From(raw, j + 1));
    assert body + [] == body;
  }

  /** `findDuplicateJsonKeys`, on any text whatsoever. */
  method FindDuplicateJsonKeys(raw: Text) returns (dups: seq<Text>)
    ensures dups == Scan(raw, [], false)
  {
    hide ReadString, Decode, AddKey, Pop;
    dups := [];
    var stack: seq<Context> := [];
    var expectKey := false;
    var i := 0;
    assert From(raw, 0) == raw;
    while i < |raw|
      invariant 0 <= i
      invariant dups + Scan(From(raw, i), stack, expectKey) == Scan(raw, [], false)
      decreases |raw| - i
    {
      var c := raw[i];
      assert From(raw, i)[1..] == From(raw, i + 1);
      if c == QUOTE {
        var body, j := ReadBody(raw, i + 1);
        if TopIsObject(stack) && expectKey {
          var key := DecodeJsonStringBody(body);
          if key in stack[|stack| - 1].keys {
            dups := dups + [key];
          }
          stack, expectKey := AddKey(stack, key), false;
        }
        i := j + 1;
      } else if c == LBRACE {
        stack, expectKey, i := stack + [InObject({})], true, i + 1;
      } else if c == LBRACKET {
        stack, i := stack + [InArray], i + 1;
      } else if c == RBRACE || c == RBRACKET {
        stack, i := Pop(stack), i + 1;
      } else if c == COMMA {
        if TopIsObject(stack) { expectKey := true; }
        i := i + 1;
      } else if c == COLON {
        expectKey, i := false, i + 1;
      } else {
        i := i + 1;
      }
    }
  }

  // ---------------------------------------------------------------------------------------
  // JSON texts (sections 2, 4, 5 and 7 of RFC 8259)
  // ---------------------------------------------------------------------------------------

  /** One character of a string literal as it is spelled. */
  datatype Piece =
    | Raw(u: CodeUnit)
    | Short(c: CodeUnit)
    | Unicode(a: CodeUnit, b: CodeUnit, c: CodeUnit, d: CodeUnit)

  predicate LegalPiece(p: Piece)
  {
    match p
    case Raw(u) => u >= 0x20 && u != QUOTE && u != BACKSLASH
    case Short(c) => SimpleEscape(c) >= 0
    case Unicode(a, b, c, d) => IsHex(a) && IsHex(b) && IsHex(c) && IsHex(d)
  }

  predicate LegalString(ps: seq<Piece>) { forall i | 0 <= i < |ps| :: LegalPiece(ps[i]) }

  function Spell(p: Piece): Text
  {
    match p
    case Raw(u) => [u]
    case Short(c) => [BACKSLASH, c]
    case Unicode(a, b, c, d) => [BACKSLASH, 117, a, b, c, d]
  }

  /** The code unit a spelled character denotes. */
  function Denote(p: Piece): CodeUnit
  {
    match p
    case Raw(u) => u
    case Short(c) => if SimpleEscape(c) >= 0 then SimpleEscape(c) else c
    case Unicode(a, b, c, d) => if LegalPiece(p) then Hex4(a, b, c, d) else 0
  }

  function Spelling(ps: seq<Piece>): Text
  {
    if |ps| == 0 then [] else Spell(ps[0]) + Spelling(ps[1..])
  }

  function Denotation(ps: seq<Piece>): (r: Text)
  {
    if |ps| == 0 then [] else [Denote(ps[0])] + Denotation(ps[1..])
  }

  /** A value with the whitespace around it. */
  datatype Node = Node(pre: Text, core: Core, post: Text)

  /** `Literal` is a number, true, false or null; `blank` is the whitespace inside empty brackets. */
  datatype Core =
    | Literal(text: Text)
    | String(ps: seq<Piece>)
    | Array(items: seq<Node>, blank: Text)
    | Object(entries: seq<Entry>, blank: Text)

  datatype Entry = Entry(pre: Text, key: seq<Piece>, post: Text, value: Node)

  predicate IsBlank(w: Text)
  {
    forall i | 0 <= i < |w| :: w[i] == 32 || w[i] == 9 || w[i] == 10 || w[i] == 13
  }

  predicate NoSpecials(t: Text) { forall i | 0 <= i < |t| :: !Special(t[i]) }

  predicate Legal(n: Node)
    decreases n
  {
    IsBlank(n.pre) && IsBlank(n.post) && LegalCore(n.core)
  }

  predicate LegalCore(c: Core)
    decreases c
  {
    match c
    case Literal(t) => NoSpecials(t)
    case String(ps) => LegalString(ps)
    case Array(xs, blank) => IsBlank(blank) && forall i | 0 <= i < |xs| :: Legal(xs[i])
    case Object(es, blank) => IsBlank(blank) && forall i | 0 <= i < |es| :: LegalEntry(es[i])
  }

  predicate LegalEntry(e: Entry)
    decreases e
  {
    IsBlank(e.pre) && IsBlank(e.post) && LegalString(e.key) && Legal(e.value)
  }

  function NodeText(n: Node): Text
    decreases n, 1
  {
    n.pre + (CoreText(n.core) + n.post)
  }

  function CoreText(c: Core): Text
    decreases c, 1
  {
    match c
    case Literal(t) => t
    case String(ps) => [QUOTE] + (Spelling(ps) + [QUOTE])
    case Array(xs, blank) => [LBRACKET] + ((if |xs| == 0 then blank else ItemsText(xs)) + [RBRACKET])
    case Object(es, blank) => [LBRACE] + ((if |es| == 0 then blank else EntriesText(es)) + [RBRACE])
  }

  function ItemsText(xs: seq<Node>): Text
    requires |xs| > 0
    decreases xs, 0
  {
    if |xs| == 1 then NodeText(xs[0]) else NodeText(xs[0]) + ([COMMA] + ItemsText(xs[1..]))
  }

  function EntryText(e: Entry): Text
    decreases e, 0
  {
    e.pre + ([QUOTE] + (Spelling(e.key) + [QUOTE])) + (e.post + ([COLON] + NodeText(e.value)))
  }

  function EntriesText(es: seq<Entry>): Text
    requires |es| > 0
    decreases es, 0
  {
    if |es| == 1 then EntryText(es[0]) else EntryText(es[0]) + ([COMMA] + EntriesText(es[1..]))
  }

  // ---------------------------------------------------------------------------------------
  // What the parse tree says
  // ---------------------------------------------------------------------------------------

  /** The repeated decoded keys of every object, in text order: a key is reported where it occurs
      again in its own object, before anything inside its value. */
  function Repeats(n: Node): (r: seq<Text>)
    decreases n
  {
    match n.core
    case Array(xs, _) => ItemsRepeats(xs)
    case Object(es, _) => EntriesRepeats(es, {})
    case _ => []
  }

  function ItemsRepeats(xs: seq<Node>): (r: seq<Text>)
    decreases xs
  {
    if |xs| == 0 then [] else Repeats(xs[0]) + ItemsRepeats(xs[1..])
  }

  function EntriesRepeats(es: seq<Entry>, seen: set<Text>): (r: seq<Text>)
    decreases es
  {
    if |es| == 0 then []
    else
      var k := Denotation(es[0].key);
      (if k in seen then [k] else []) + (Repeats(es[0].value) + EntriesRepeats(es[1..], seen + {k}))
  }

  /** No object of the tree holds the same decoded key twice. */
  ghost predicate KeysUnique(n: Node)
    decreases n
  {
    match n.core
    case Array(xs, _) => forall i | 0 <= i < |xs| :: KeysUnique(xs[i])
    case Object(es, _) =>
      && (forall i, j | 0 <= i < j < |es| :: Denotation(es[i].key) != Denotation(es[j].key))
      && (forall i | 0 <= i < |es| :: KeysUnique(es[i].value))
    case _ => true
  }

  // ---------------------------------------------------------------------------------------
  // The scanner on string literals and plain runs
  // ---------------------------------------------------------------------------------------

  lemma HexPlain(hex: Text)
    requires forall i | 0 <= i < |hex| :: IsHex(hex[i])
    ensures forall i | 0 <= i < |hex| :: hex[i] != QUOTE && hex[i] != BACKSLASH
    ensures SimpleEscape(117) < 0
  {
  }

  lemma ReadPiece(p: Piece, rest: Text)
    requires LegalPiece(p)
    ensures ReadString(Spell(p) + rest) == (Spell(p) + ReadString(rest).0, ReadString(rest).1)
  {
    hide ReadString, IsHex, SimpleEscape;
    match p
    case Raw(u) => ReadPlainRun([u], rest);
    case Short(c) => ReadEscape(c, rest);
    case Unicode(a, b, c, d) =>
      var hex := [a, b, c, d];
      assert Spell(p) + rest == [BACKSLASH, 117] + (hex + rest);
      ReadEscape(117, hex + rest);
      HexPlain(hex);
      ReadPlainRun(hex, rest);
      assert [BACKSLASH, 117] + (hex + ReadString(rest).0) == Spell(p) + ReadString(rest).0;
  }

  lemma DecodePiece(p: Piece, rest: Text)
    requires LegalPiece(p)
    ensures Decode(Spell(p) + rest) == [Denote(p)] + Decode(rest)
  {
    hide Decode, IsHex, Hex4, SimpleEscape;
    var t := Spell(p) + rest;
    HexPlain([]);
    UnfoldDecode(t);
    assert t[|Spell(p)|..] == rest;
  }

  lemma {:induction false} ReadSpelling(ps: seq<Piece>, rest: Text)
    requires LegalString(ps)
    ensures ReadString(Spelling(ps) + ([QUOTE] + rest)) == (Spelling(ps), rest)
    ensures Decode(Spelling(ps)) == Denotation(ps)
  {
    hide ReadString, Decode, Spell, Denote;
    ReadClose(rest);
    if |ps| == 0 {
      assert Spelling(ps) + ([QUOTE] + rest) == [QUOTE] + rest;
    } else {
      ReadSpelling(ps[1..], rest);
      var t := Spelling(ps[1..]) + ([QUOTE] + rest);
      assert Spelling(ps) + ([QUOTE] + rest) == Spell(ps[0]) + t;
      ReadPiece(ps[0], t);
      DecodePiece(ps[0], Spelling(ps[1..]));
    }
  }

  lemma {:induction false} ScanSkip(w: Text, rest: Text, stack: seq<Context>, ek: bool)
    requires NoSpecials(w)
    ensures Scan(w + rest, stack, ek) == Scan(rest, stack, ek)
  {
    if |w| == 0 {
      assert w + rest == rest;
    } else {
      assert (w + rest)[1..] == w[1..] + rest;
      ScanSkip(w[1..], rest, stack, ek);
    }
  }

  lemma ScanString(ps: seq<Piece>, rest: Text, stack: seq<Context>, ek: bool)
    requires LegalString(ps)
    ensures Scan([QUOTE] + (Spelling(ps) + [QUOTE]) + rest, stack, ek)
         == if TopIsObject(stack) && ek then
              (if Denotation(ps) in stack[|stack| - 1].keys then [Denotation(ps)] else [])
              + Scan(rest, AddKey(stack, Denotation(ps)), false)
            else Scan(rest, stack, ek)
  {
    hide ReadString, Decode, Spelling, Denotation;
    var t := [QUOTE] + (Spelling(ps) + [QUOTE]) + rest;
    assert t[1..] == Spelling(ps) + ([QUOTE] + rest);
    ReadSpelling(ps, rest);
  }

  // ---------------------------------------------------------------------------------------
  // The scanner agrees with the tree
  // ---------------------------------------------------------------------------------------

  /** In value position the scanner consumes a whole node, reports exactly its repeats and leaves
      the stack as it was. `ek'` is the expect-key flag it leaves behind. */
  lemma {:induction false} ScanNode(n: Node, rest: Text, stack: seq<Context>, ek: bool) returns (ek': bool)
    requires Legal(n) && !(TopIsObject(stack) && ek)
    ensures Scan(NodeText(n) + rest, stack, ek) == Repeats(n) + Scan(rest, stack, ek')
    decreases n, 1
  {
    hide Scan;
    var mid := n.post + rest;
    assert NodeText(n) + rest == n.pre + (CoreText(n.core) + mid);
    ScanSkip(n.pre, CoreText(n.core) + mid, stack, ek);
    ek' := ScanCore(n, mid, stack, ek);
    ScanSkip(n.post, rest, stack, ek');
  }

  lemma {:induction false} ScanCore(n: Node, rest: Text, stack: seq<Context>, ek: bool) returns (ek': bool)
    requires Legal(n) && !(TopIsObject(stack) && ek)
    ensures Scan(CoreText(n.core) + rest, stack, ek) == Repeats(n) + Scan(rest, stack, ek')
    decreases n, 0
  {
    hide Scan, AddKey;
    ek' := ek;
    match n.core
    case Literal(t) => ScanSkip(t, rest, stack, ek);
    case String(ps) => ScanString(ps, rest, stack, ek);
    case Array(xs, blank) =>
      var inner := stack + [InArray];
      var close := [RBRACKET] + rest;
      var body := if |xs| == 0 then blank else ItemsText(xs);
      assert CoreText(n.core) + rest == [LBRACKET] + (body + close);
      ScanOpenArray(body + close, stack, ek);
      if |xs| == 0 {
        ScanSkip(blank, close, inner, ek);
      } else {
        ek' := ScanItems(xs, close, inner, ek);
      }
      ScanClose(RBRACKET, rest, stack, InArray, ek');
    case Object(es, blank) =>
      var inner := stack + [InObject({})];
      var close := [RBRACE] + rest;
      var body := if |es| == 0 then blank else EntriesText(es);
      assert CoreText(n.core) + rest == [LBRACE] + (body + close);
      ScanOpenObject(body + close, stack, ek);
      if |es| == 0 {
        ScanSkip(blank, close, inner, true);
        ek' := true;
        ScanClose(RBRACE, rest, stack, InObject({}), ek');
      } else {
        var seen;
        ek', seen := ScanEntries(es, {}, close, stack);
        ScanClose(RBRACE, rest, stack, InObject(seen), ek');
      }
  }

  lemma ScanOpenArray(t: Text, stack: seq<Context>, ek: bool)
    ensures Scan([LBRACKET] + t, stack, ek) == Scan(t, stack + [InArray], ek)
  {
    assert ([LBRACKET] + t)[1..] == t;
  }

  lemma ScanOpenObject(t: Text, stack: seq<Context>, ek: bool)
    ensures Scan([LBRACE] + t, stack, ek) == Scan(t, stack + [InObject({})], true)
  {
    assert ([LBRACE] + t)[1..] == t;
  }

  lemma ScanClose(u: CodeUnit, t: Text, stack: seq<Context>, top: Context, ek: bool)
    requires u == RBRACE || u == RBRACKET
    ensures Scan([u] + t, stack + [top], ek) == Scan(t, stack, ek)
  {
    assert ([u] + t)[1..] == t;
    assert Pop(stack + [top]) == stack;
  }

  lemma ScanComma(t: Text, stack: seq<Context>, ek: bool)
    ensures Scan([COMMA] + t, stack, ek) == Scan(t, stack, TopIsObject(stack) || ek)
  {
    assert ([COMMA] + t)[1..] == t;
  }

  lemma ScanColon(t: Text, stack: seq<Context>, ek: bool)
    ensures Scan([COLON] + t, stack, ek) == Scan(t, stack, false)
  {
    assert ([COLON] + t)[1..] == t;
  }

  lemma {:induction false} ScanItems(xs: seq<Node>, rest: Text, stack: seq<Context>, ek: bool) returns (ek': bool)
    requires |xs| > 0 && (forall i | 0 <= i < |xs| :: Legal(xs[i])) && !TopIsObject(stack)
    ensures Scan(ItemsText(xs) + rest, stack, ek) == ItemsRepeats(xs) + Scan(rest, stack, ek')
    decreases xs, 0
  {
    hide Scan, NodeText, Repeats, Legal;
    if |xs| == 1 {
      ek' := ScanNode(xs[0], rest, stack, ek);
      assert ItemsRepeats(xs) == Repeats(xs[0]) + [] == Repeats(xs[0]) by { assert ItemsRepeats(xs[1..]) == []; }
    } else {
      var tail := ItemsText(xs[1..]) + rest;
      assert ItemsText(xs) + rest == NodeText(xs[0]) + ([COMMA] + tail);
      var e := ScanNode(xs[0], [COMMA] + tail, stack, ek);
      ScanComma(tail, stack, e);
      ek' := ScanItems(xs[1..], rest, stack, e);
    }
  }

  /** One member: its key is looked up in the object's keys so far, then its value is scanned. */
  lemma {:induction false} ScanEntry(e: Entry, seen: set<Text>, rest: Text, stack: seq<Context>) returns (ek': bool)
    requires LegalEntry(e)
    ensures var k := Denotation(e.key);
            Scan(EntryText(e) + rest, stack + [InObject(seen)], true)
            == (if k in seen then [k] else [])
               + (Repeats(e.value) + Scan(rest, stack + [InObject(seen + {k})], ek'))
    decreases e, 0
  {
    hide Scan, NodeText, Repeats, Legal, Spelling, Denotation;
    var k := Denotation(e.key);
    var before, after := stack + [InObject(seen)], stack + [InObject(seen + {k})];
    var value := NodeText(e.value) + rest;
    var mid := e.post + ([COLON] + value);
    assert EntryText(e) + rest == e.pre + ([QUOTE] + (Spelling(e.key) + [QUOTE]) + mid);
    ScanSkip(e.pre, [QUOTE] + (Spelling(e.key) + [QUOTE]) + mid, before, true);
    ScanString(e.key, mid, before, true);
    assert AddKey(before, k) == after;
    ScanSkip(e.post, [COLON] + value, after, false);
    ScanColon(value, after, false);
    ek' := ScanNode(e.value, rest, after, false);
  }

  lemma {:induction false} ScanEntries(es: seq<Entry>, seen: set<Text>, rest: Text, stack: seq<Context>)
    returns (ek': bool, seen': set<Text>)
    requires |es| > 0 && (forall i | 0 <= i < |es| :: LegalEntry(es[i]))
    ensures Scan(EntriesText(es) + rest, stack + [InObject(seen)], true)
         == EntriesRepeats(es, seen) + Scan(rest, stack + [InObject(seen')], ek')
    decreases es, 0
  {
    hide Scan, EntryText, Repeats, LegalEntry, Denotation;
    var k := Denotation(es[0].key);
    seen' := seen + {k};
    if |es| == 1 {
      ek' := ScanEntry(es[0], seen, rest, stack);
      assert EntriesRepeats(es[1..], seen') == [];
    } else {
      var tail := EntriesText(es[1..]) + rest;
      assert EntriesText(es) + rest == EntryText(es[0]) + ([COMMA] + tail);
      var e := ScanEntry(es[0], seen, [COMMA] + tail, stack);
      ScanComma(tail, stack + [InObject(seen')], e);
      ek', seen' := ScanEntries(es[1..], seen + {k}, rest, stack);
    }
  }

  /** On every JSON text the scanner returns exactly the repeated decoded keys, in text order. */
  lemma ScannerAgreesWithTree(n: Node)
    requires Legal(n)
    ensures Scan(NodeText(n), [], false) == Repeats(n)
  {
    var ek' := ScanNode(n, [], [], false);
    assert NodeText(n) + [] == NodeText(n);
  }

  lemma {:induction false} EntriesRepeatsEmpty(es: seq<Entry>, seen: set<Text>)
    requires forall i | 0 <= i < |es| :: Repeats(es[i].value) == [] <==> KeysUnique(es[i].value)
    ensures EntriesRepeats(es, seen) == [] <==>
              && (forall i | 0 <= i < |es| :: Denotation(es[i].key) !in seen)
              && (forall i, j | 0 <= i < j < |es| :: Denotation(es[i].key) != Denotation(es[j].key))
              && (forall i | 0 <= i < |es| :: KeysUnique(es[i].value))
    decreases es
  {
    hide Repeats, KeysUnique, LegalEntry, Denotation;
    if |es| > 0 {
      var k, t := Denotation(es[0].key), es[1..];
      EntriesRepeatsEmpty(t, seen + {k});
      assert forall i | 0 <= i < |t| :: t[i] == es[i + 1];
      assert forall i | 0 < i < |es| :: es[i] == t[i - 1];
    }
  }

  /** The report is empty exactly when no object repeats a key. */
  lemma {:induction false} EmptyReportIffUnique(n: Node)
    ensures Repeats(n) == [] <==> KeysUnique(n)
    decreases n, 1
  {
    match n.core
    case Array(xs, _) => ItemsRepeatsEmpty(xs);
    case Object(es, _) =>
      forall i | 0 <= i < |es| { EmptyReportIffUnique(es[i].value); }
      EntriesRepeatsEmpty(es, {});
    case _ =>
  }

  lemma {:induction false} ItemsRepeatsEmpty(xs: seq<Node>)
    ensures ItemsRepeats(xs) == [] <==> forall i | 0 <= i < |xs| :: KeysUnique(xs[i])
    decreases xs, 0
  {
    if |xs| > 0 {
      EmptyReportIffUnique(xs[0]);
      ItemsRepeatsEmpty(xs[1..]);
      assert forall i | 0 < i < |xs| :: xs[i] == xs[1..][i - 1];
    }
  }
}
