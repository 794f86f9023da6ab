/** The two canonical JSON printers: the audit-chain `canonicalize` and the intent printer
    `stableCanonicalJson`. Their texts decide identity (chain hashes, idempotency hashes), so
    the results here say exactly which values share a text. */
module CanonicalJson {
  import opened Wrappers
  import opened Utf16
  import opened JsonStrings

  /** JavaScript values the printers meet. A finite number is represented by its JSON text. */
  datatype Json =
    | Undefined
    | NonFinite
    | BigInt
    | Null
    | Bool(b: bool)
    | Num(digits: Text)
    | Str(s: Text)
    | Arr(items: seq<Json>)
    | Obj(members: seq<Member>)

  datatype Member = Member(key: Text, value: Json)

  // ---------------------------------------------------------------------------------------
  // Well-formed values
  // ---------------------------------------------------------------------------------------

  /** Digits, sign, point and exponent: every unit a JSON number text may hold. */
  predicate IsNumberUnit(u: CodeUnit)
  {
    48 <= u <= 57 || u == 43 || u == 45 || u == 46 || u == 101 || u == 69
  }

  predicate IsNumberText(t: Text)
  {
    |t| > 0 && (48 <= t[0] <= 57 || t[0] == 45) && forall i | 0 <= i < |t| :: IsNumberUnit(t[i])
  }

  ghost predicate DistinctKeys(ms: seq<Member>)
  {
    forall i, j | 0 <= i < j < |ms| :: ms[i].key != ms[j].key
  }

  /** What every JavaScript value satisfies: number texts are number texts, and an object never
      holds a key twice. */
  ghost predicate WellFormed(v: Json)
  {
    match v
    case Num(d) => IsNumberText(d)
    case Arr(xs) => forall i | 0 <= i < |xs| :: WellFormed(xs[i])
    case Obj(ms) => DistinctKeys(ms) && forall i | 0 <= i < |ms| :: WellFormed(ms[i].value)
    case _ => true
  }

  /** A value JSON itself can hold. */
  ghost predicate Plain(v: Json)
  {
    match v
    case Undefined => false
    case NonFinite => false
    case BigInt => false
    case Arr(xs) => forall i | 0 <= i < |xs| :: Plain(xs[i])
    case Obj(ms) => forall i | 0 <= i < |ms| :: Plain(ms[i].value)
    case _ => true
  }

  /** Equality up to the order of object members: the identity both printers are meant to decide. */
  ghost predicate Same(v: Json, w: Json)
  {
    match v
    case Arr(xs) =>
      w.Arr? && |xs| == |w.items| && forall i | 0 <= i < |xs| :: Same(xs[i], w.items[i])
    case Obj(ms) =>
      && w.Obj?
      && (forall i | 0 <= i < |ms| :: HasSame(ms[i], w.members))
      && (forall j | 0 <= j < |w.members| :: HasKey(ms, w.members[j].key))
    case _ => v == w
  }

  ghost predicate HasSame(m: Member, ns: seq<Member>)
  {
    exists j | 0 <= j < |ns| :: ns[j].key == m.key && Same(m.value, ns[j].value)
  }

  ghost predicate HasKey(ms: seq<Member>, k: Text)
  {
    exists i | 0 <= i < |ms| :: ms[i].key == k
  }

  // ---------------------------------------------------------------------------------------
  // Sorting by key
  // ---------------------------------------------------------------------------------------

  function Insert(m: Member, ms: seq<Member>): (r: seq<Member>)
    ensures multiset(r) == multiset{m} + multiset(ms)
  {
    if |ms| == 0 then [m]
    else if Le(m.key, ms[0].key) then [m] + ms
    else
      assert ms == [ms[0]] + ms[1..];
      [ms[0]] + Insert(m, ms[1..])
  }

  function SortByKey(ms: seq<Member>): (r: seq<Member>)
    ensures multiset(r) == multiset(ms)
  {
    if |ms| == 0 then []
    else
      assert ms == [ms[0]] + ms[1..];
      Insert(ms[0], SortByKey(ms[1..]))
  }

  ghost predicate Sorted(ms: seq<Member>)
  {
    forall i, j | 0 <= i < j < |ms| :: Lt(ms[i].key, ms[j].key)
  }

  lemma SameElements(a: seq<Member>, b: seq<Member>)
    requires multiset(a) == multiset(b)
    ensures forall m :: m in a <==> m in b
  {
    assert forall m :: m in multiset(a) <==> m in a;
    assert forall m :: m in multiset(b) <==> m in b;
  }

  lemma {:induction false} InsertSorted(m: Member, ms: seq<Member>)
    requires Sorted(ms)
    requires forall i | 0 <= i < |ms| :: ms[i].key != m.key
    ensures Sorted(Insert(m, ms))
  {
    if |ms| == 0 {
    } else if Le(m.key, ms[0].key) {
      forall j | 0 <= j < |ms| ensures Lt(m.key, ms[j].key) {
        if j > 0 { LtTransitive(m.key, ms[0].key, ms[j].key); }
      }
      ConsSorted(m, ms);
    } else {
      LeTotal(m.key, ms[0].key);
      InsertSorted(m, ms[1..]);
      var t := Insert(m, ms[1..]);
      SameElements(t, [m] + ms[1..]);
      forall j | 0 <= j < |t| ensures Lt(ms[0].key, t[j].key) {
        assert t[j] in t;
        assert t[j] in [m] + ms[1..];
      }
      ConsSorted(ms[0], t);
    }
  }

  lemma ConsSorted(m: Member, t: seq<Member>)
    requires Sorted(t) && forall j | 0 <= j < |t| :: Lt(m.key, t[j].key)
    ensures Sorted([m] + t)
  {
    hide Lt;
  }

  lemma {:induction false} SortSorted(ms: seq<Member>)
    requires DistinctKeys(ms)
    ensures Sorted(SortByKey(ms))
  {
    if |ms| > 0 {
      SortSorted(ms[1..]);
      var t := SortByKey(ms[1..]);
      SameElements(t, ms[1..]);
      forall i | 0 <= i < |t| ensures t[i].key != ms[0].key {
        assert t[i] in t;
        assert t[i] in ms[1..];
      }
      InsertSorted(ms[0], t);
    }
  }

  lemma SortedHead(a: seq<Member>, m: Member)
    requires Sorted(a) && m in a
    ensures |a| > 0 && Le(a[0].key, m.key)
  {
    var i :| 0 <= i < |a| && a[i] == m;
    if i == 0 { LeReflexive(m.key); }
  }

  /** A strictly sorted member list is determined by its elements. */
  lemma {:induction false} SortedUnique(a: seq<Member>, b: seq<Member>)
    requires Sorted(a) && Sorted(b)
    requires forall m :: m in a <==> m in b
    ensures a == b
  {
    assert |b| > 0 ==> exists m :: m in b by { if |b| > 0 { assert b[0] in b; } }
    if |a| > 0 {
      assert a[0] in a;
      assert a[0] in b;
      assert b[0] in b;
      assert b[0] in a;
      SortedHead(a, b[0]);
      SortedHead(b, a[0]);
      LeAntisymmetric(a[0].key, b[0].key);
      var i :| 0 <= i < |b| && b[i] == a[0];
      assert i == 0;
      forall m ensures m in a[1..] <==> m in b[1..] {
        TailMembers(a, m);
        TailMembers(b, m);
      }
      SortedUnique(a[1..], b[1..]);
      assert a == [a[0]] + a[1..] && b == [b[0]] + b[1..];
    }
  }

  lemma TailMembers(a: seq<Member>, m: Member)
    requires Sorted(a) && |a| > 0
    ensures m in a[1..] <==> m in a && m != a[0]
  {
    if m in a && m != a[0] {
      var i :| 0 <= i < |a| && a[i] == m;
      assert a[1..][i - 1] == m;
    }
  }

  // ---------------------------------------------------------------------------------------
  // Normal forms
  // ---------------------------------------------------------------------------------------

  /** Every object's members sorted by key, recursively. */
  function SortAll(v: Json): (r: Json)
    decreases v, 1
  {
    match v
    case Arr(xs) => Arr(SortAllItems(xs))
    case Obj(ms) => Obj(SortByKey(SortAllMembers(ms)))
    case _ => v
  }

  function SortAllItems(xs: seq<Json>): (r: seq<Json>)
    ensures |r| == |xs| && forall i | 0 <= i < |xs| :: r[i] == SortAll(xs[i])
    decreases xs, 0
  {
    if |xs| == 0 then [] else [SortAll(xs[0])] + SortAllItems(xs[1..])
  }

  function SortAllMembers(ms: seq<Member>): (r: seq<Member>)
    ensures |r| == |ms| && forall i | 0 <= i < |ms| :: r[i] == Member(ms[i].key, SortAll(ms[i].value))
    decreases ms, 0
  {
    if |ms| == 0 then [] else [Member(ms[0].key, SortAll(ms[0].value))] + SortAllMembers(ms[1..])
  }

  /** The sorted members of an object are exactly its members with sorted values. */
  ghost predicate IsSortedCopy(m: Member, ms: seq<Member>)
  {
    exists i | 0 <= i < |ms| :: m == Member(ms[i].key, SortAll(ms[i].value))
  }

  lemma SortedMemberOf(ms: seq<Member>, m: Member)
    ensures m in SortByKey(SortAllMembers(ms)) <==> IsSortedCopy(m, ms)
  {
    var t := SortAllMembers(ms);
    SameElements(SortByKey(t), t);
    if m in t {
      var i :| 0 <= i < |t| && t[i] == m;
      assert m == Member(ms[i].key, SortAll(ms[i].value));
    }
    if i :| 0 <= i < |ms| && m == Member(ms[i].key, SortAll(ms[i].value)) {
      assert t[i] == m;
    }
  }

  lemma SortAllMembersSorted(ms: seq<Member>)
    requires DistinctKeys(ms)
    ensures Sorted(SortByKey(SortAllMembers(ms)))
  {
    SortSorted(SortAllMembers(ms));
  }

  /** Two values are the same up to key order exactly when their sorted forms are equal. */
  lemma {:induction false} SameIffSortAll(v: Json, w: Json)
    requires WellFormed(v) && WellFormed(w)
    ensures Same(v, w) <==> SortAll(v) == SortAll(w)
    decreases v
  {
    if v.Arr? && w.Arr? {
      SameIffSortAllArr(v.items, w.items);
    } else if v.Obj? && w.Obj? {
      var a, b := SortByKey(SortAllMembers(v.members)), SortByKey(SortAllMembers(w.members));
      if Same(v, w) { SameObjSorted(v, w); }
      if a == b { SortedObjSame(v, w); }
    }
  }

  lemma {:induction false} SameIffSortAllArr(xs: seq<Json>, ys: seq<Json>)
    requires WellFormed(Arr(xs)) && WellFormed(Arr(ys))
    ensures Same(Arr(xs), Arr(ys)) <==> SortAllItems(xs) == SortAllItems(ys)
    decreases xs
  {
    if |xs| == |ys| {
      forall i | 0 <= i < |xs| ensures Same(xs[i], ys[i]) <==> SortAll(xs[i]) == SortAll(ys[i]) {
        SameIffSortAll(xs[i], ys[i]);
      }
      if SortAllItems(xs) == SortAllItems(ys) {
        forall i | 0 <= i < |xs| ensures Same(xs[i], ys[i]) {
          assert SortAllItems(xs)[i] == SortAllItems(ys)[i];
        }
      }
    }
  }

  lemma {:induction false} SameObjSorted(v: Json, w: Json)
    requires v.Obj? && w.Obj? && WellFormed(v) && WellFormed(w) && Same(v, w)
    ensures SortByKey(SortAllMembers(v.members)) == SortByKey(SortAllMembers(w.members))
    decreases v, 0
  {
    hide SortAll, SortByKey, SortAllMembers, Sorted;
    var ms, ns := v.members, w.members;
    var a, b := SortByKey(SortAllMembers(ms)), SortByKey(SortAllMembers(ns));
    SortAllMembersSorted(ms);
    SortAllMembersSorted(ns);
    forall m ensures m in a <==> m in b {
      SortedMemberOf(ms, m);
      SortedMemberOf(ns, m);
      if m in a {
        var i :| 0 <= i < |ms| && m == Member(ms[i].key, SortAll(ms[i].value));
        var j := Partner(v, w, i);
        SameIffSortAll(ms[i].value, ns[j].value);
      }
      if m in b {
        var j :| 0 <= j < |ns| && m == Member(ns[j].key, SortAll(ns[j].value));
        var i := PartnerBack(v, w, j);
        SameIffSortAll(ms[i].value, ns[j].value);
      }
    }
    SortedUnique(a, b);
  }

  lemma Partner(v: Json, w: Json, i: nat) returns (j: nat)
    requires v.Obj? && w.Obj? && Same(v, w) && i < |v.members|
    ensures j < |w.members| && w.members[j].key == v.members[i].key
    ensures Same(v.members[i].value, w.members[j].value)
  {
    var m := v.members[i];
    assert HasSame(m, w.members);
    j :| 0 <= j < |w.members| && w.members[j].key == m.key && Same(m.value, w.members[j].value);
  }

  lemma PartnerBack(v: Json, w: Json, j: nat) returns (i: nat)
    requires v.Obj? && w.Obj? && WellFormed(w) && Same(v, w) && j < |w.members|
    ensures i < |v.members| && w.members[j].key == v.members[i].key
    ensures Same(v.members[i].value, w.members[j].value)
  {
    assert HasKey(v.members, w.members[j].key);
    i :| 0 <= i < |v.members| && v.members[i].key == w.members[j].key;
    var k := Partner(v, w, i);
    assert k == j;
  }

  lemma {:induction false} SortedObjSame(v: Json, w: Json)
    requires v.Obj? && w.Obj? && WellFormed(v) && WellFormed(w)
    requires SortByKey(SortAllMembers(v.members)) == SortByKey(SortAllMembers(w.members))
    ensures Same(v, w)
    decreases v, 0
  {
    hide SortAll, SortByKey, SortAllMembers;
    var ms, ns := v.members, w.members;
    forall i | 0 <= i < |ms| ensures HasSame(ms[i], ns) {
      var j := SortedPartner(ms, ns, i);
      SameIffSortAll(ms[i].value, ns[j].value);
    }
    forall j | 0 <= j < |ns| ensures HasKey(ms, ns[j].key) {
      var i := SortedPartner(ns, ms, j);
    }
  }

  lemma SortedPartner(ms: seq<Member>, ns: seq<Member>, i: nat) returns (j: nat)
    requires SortByKey(SortAllMembers(ms)) == SortByKey(SortAllMembers(ns)) && i < |ms|
    ensures j < |ns| && ns[j].key == ms[i].key && SortAll(ns[j].value) == SortAll(ms[i].value)
  {
    hide SortAll, SortByKey, SortAllMembers;
    var m := Member(ms[i].key, SortAll(ms[i].value));
    SortedMemberOf(ms, m);
    SortedMemberOf(ns, m);
    j :| 0 <= j < |ns| && m == Member(ns[j].key, SortAll(ns[j].value));
  }

  // ---------------------------------------------------------------------------------------
  // The text of a plain value, in its members' own order
  // ---------------------------------------------------------------------------------------

  const NULL_TEXT: Text := [110, 117, 108, 108]
  const TRUE_TEXT: Text := [116, 114, 117, 101]
  const FALSE_TEXT: Text := [102, 97, 108, 115, 101]

  /** `parts.join(',')`. */
  function Join(parts: seq<Text>): (r: Text)
  {
    if |parts| == 0 then [] else if |parts| == 1 then parts[0]
    else parts[0] + [COMMA] + Join(parts[1..])
  }

  function Render(v: Json): (r: Text)
    decreases v, 1
  {
    match v
    case Bool(b) => if b then TRUE_TEXT else FALSE_TEXT
    case Num(d) => d
    case Str(s) => Quote(s)
    case Arr(xs) => [LBRACKET] + Join(RenderItems(xs)) + [RBRACKET]
    case Obj(ms) => [LBRACE] + Join(RenderMembers(ms)) + [RBRACE]
    case _ => NULL_TEXT
  }

  function RenderItems(xs: seq<Json>): (r: seq<Text>)
    ensures |r| == |xs| && forall i | 0 <= i < |xs| :: r[i] == Render(xs[i])
    decreases xs, 0
  {
    if |xs| == 0 then [] else [Render(xs[0])] + RenderItems(xs[1..])
  }

  function RenderMembers(ms: seq<Member>): (r: seq<Text>)
    ensures |r| == |ms| && forall i | 0 <= i < |ms| :: r[i] == RenderMember(ms[i])
    decreases ms, 0
  {
    if |ms| == 0 then [] else [RenderMember(ms[0])] + RenderMembers(ms[1..])
  }

  function RenderMember(m: Member): (r: Text)
    decreases m, 0
  {
    Quote(m.key) + [COLON] + Render(m.value)
  }

  /** The literals and the structural characters of section 2 of RFC 8259. */
  lemma Alphabet()
    ensures NULL_TEXT == Units("null") && TRUE_TEXT == Units("true") && FALSE_TEXT == Units("false")
    ensures [LBRACKET, RBRACKET, LBRACE, RBRACE, COLON, COMMA, QUOTE, BACKSLASH] == Units("[]{}:,\"\\")
  {
  }

  function Units(s: string): Text { seq(|s|, i requires 0 <= i < |s| => s[i] as int % 0x10000) }

  // ---------------------------------------------------------------------------------------
  // Rendering is a prefix-free code
  // ---------------------------------------------------------------------------------------

  /** What may follow a complete value: nothing, a comma or a closing bracket. */
  predicate Delimited(t: Text)
  {
    |t| > 0 ==> t[0] == COMMA || t[0] == RBRACKET || t[0] == RBRACE
  }

  lemma NumberEnds(a: Text, s: Text)
    requires forall i | 0 <= i < |a| :: IsNumberUnit(a[i])
    requires Delimited(s)
    ensures forall i | 0 <= i < |a| :: IsNumberUnit((a + s)[i])
    ensures |a| == |a + s| || !IsNumberUnit((a + s)[|a|])
  {
  }

  lemma NumberPrefix(a: Text, b: Text, s: Text, t: Text)
    requires forall i | 0 <= i < |a| :: IsNumberUnit(a[i])
    requires forall i | 0 <= i < |b| :: IsNumberUnit(b[i])
    requires Delimited(s) && Delimited(t) && a + s == b + t
    ensures a == b && s == t
  {
    NumberEnds(a, s);
    NumberEnds(b, t);
    assert |a| == |b|;
    assert a == (a + s)[..|a|] && b == (b + t)[..|b|];
    assert s == (a + s)[|a|..] && t == (b + t)[|b|..];
  }

  /** The kind of a plain value can be read off the first unit of its text. */
  function FirstUnit(v: Json): CodeUnit
    requires Plain(v) && WellFormed(v)
  {
    match v
    case Null => 110
    case Bool(b) => if b then 116 else 102
    case Num(d) => d[0]
    case Str(_) => QUOTE
    case Arr(_) => LBRACKET
    case Obj(_) => LBRACE
  }

  lemma RenderFirst(v: Json)
    requires Plain(v) && WellFormed(v)
    ensures |Render(v)| > 0 && Render(v)[0] == FirstUnit(v)
    ensures FirstUnit(v) != COMMA && FirstUnit(v) != RBRACKET && FirstUnit(v) != RBRACE
  {
  }

  lemma Cancel(p: Text, s: Text, t: Text)
    requires p + s == p + t
    ensures s == t
  {
    assert s == (p + s)[|p|..] && t == (p + t)[|p|..];
  }

  lemma {:induction false} RenderPrefixFree(v: Json, w: Json, s: Text, t: Text)
    requires Plain(v) && WellFormed(v) && Plain(w) && WellFormed(w)
    requires Delimited(s) && Delimited(t)
    requires Render(v) + s == Render(w) + t
    ensures v == w && s == t
    decreases v, 1
  {
    RenderFirst(v);
    RenderFirst(w);
    assert (Render(v) + s)[0] == FirstUnit(v) && (Render(w) + t)[0] == FirstUnit(w);
    match v
    case Null => Cancel(NULL_TEXT, s, t);
    case Bool(b) => Cancel(Render(v), s, t);
    case Num(d) => NumberPrefix(d, w.digits, s, t);
    case Str(a) => QuotePrefixFree(a, w.s, s, t);
    case Arr(xs) =>
      Unbracket(LBRACKET, Join(RenderItems(xs)), Join(RenderItems(w.items)), RBRACKET, s, t);
      ItemsPrefixFree(xs, w.items, s, t);
    case Obj(ms) =>
      Unbracket(LBRACE, Join(RenderMembers(ms)), Join(RenderMembers(w.members)), RBRACE, s, t);
      MembersPrefixFree(ms, w.members, s, t);
  }

  lemma Unbracket(open: CodeUnit, a: Text, b: Text, close: CodeUnit, s: Text, t: Text)
    requires [open] + a + [close] + s == [open] + b + [close] + t
    ensures a + ([close] + s) == b + ([close] + t)
  {
    assert [open] + a + [close] + s == [open] + (a + ([close] + s));
    assert [open] + b + [close] + t == [open] + (b + ([close] + t));
    Cancel([open], a + ([close] + s), b + ([close] + t));
  }

  /** What follows the first of several joined parts, when `rest` follows them all. */
  function AfterFirst(parts: seq<Text>, rest: Text): Text
    requires |parts| > 0
  {
    if |parts| == 1 then rest else [COMMA] + (Join(parts[1..]) + rest)
  }

  lemma JoinSplit(parts: seq<Text>, rest: Text)
    requires |parts| > 0
    ensures Join(parts) + rest == parts[0] + AfterFirst(parts, rest)
  {
  }

  lemma {:induction false} ItemsPrefixFree(xs: seq<Json>, ys: seq<Json>, s: Text, t: Text)
    requires Plain(Arr(xs)) && WellFormed(Arr(xs)) && Plain(Arr(ys)) && WellFormed(Arr(ys))
    requires Join(RenderItems(xs)) + ([RBRACKET] + s) == Join(RenderItems(ys)) + ([RBRACKET] + t)
    ensures xs == ys && s == t
    decreases xs, 0
  {
    hide Render, Join, Plain, WellFormed;
    var s', t' := [RBRACKET] + s, [RBRACKET] + t;
    var ps, qs := RenderItems(xs), RenderItems(ys);
    ItemsPlain(xs);
    ItemsPlain(ys);
    ItemsStart(xs, s);
    ItemsStart(ys, t);
    if |xs| == 0 {
      Cancel([RBRACKET], s, t);
    } else {
      JoinSplit(ps, s');
      JoinSplit(qs, t');
      RenderPrefixFree(xs[0], ys[0], AfterFirst(ps, s'), AfterFirst(qs, t'));
      if |xs| > 1 && |ys| > 1 {
        assert ps[1..] == RenderItems(xs[1..]) && qs[1..] == RenderItems(ys[1..]);
        Cancel([COMMA], Join(ps[1..]) + s', Join(qs[1..]) + t');
        ItemsPrefixFree(xs[1..], ys[1..], s, t);
      } else {
        assert AfterFirst(ps, s')[0] == AfterFirst(qs, t')[0];
        Cancel([RBRACKET], s, t);
      }
      assert xs == [xs[0]] + xs[1..] && ys == [ys[0]] + ys[1..];
    }
  }

  lemma ItemsPlain(xs: seq<Json>)
    requires Plain(Arr(xs)) && WellFormed(Arr(xs))
    ensures |xs| > 0 ==> Plain(xs[0]) && WellFormed(xs[0]) && Plain(Arr(xs[1..])) && WellFormed(Arr(xs[1..]))
  {
  }

  lemma ItemsStart(xs: seq<Json>, s: Text)
    requires Plain(Arr(xs)) && WellFormed(Arr(xs))
    ensures (Join(RenderItems(xs)) + ([RBRACKET] + s))[0] == RBRACKET <==> |xs| == 0
    ensures |xs| == 0 ==> Join(RenderItems(xs)) + ([RBRACKET] + s) == [RBRACKET] + s
  {
    if |xs| > 0 {
      JoinSplit(RenderItems(xs), [RBRACKET] + s);
      RenderFirst(xs[0]);
    }
  }

  lemma {:induction false} MemberPrefixFree(m: Member, n: Member, s: Text, t: Text)
    requires Plain(m.value) && WellFormed(m.value) && Plain(n.value) && WellFormed(n.value)
    requires Delimited(s) && Delimited(t)
    requires RenderMember(m) + s == RenderMember(n) + t
    ensures m == n && s == t
    decreases m, 0
  {
    hide Render, Quote, Plain, WellFormed;
    var a, b := Render(m.value) + s, Render(n.value) + t;
    assert RenderMember(m) + s == Quote(m.key) + ([COLON] + a);
    assert RenderMember(n) + t == Quote(n.key) + ([COLON] + b);
    QuotePrefixFree(m.key, n.key, [COLON] + a, [COLON] + b);
    Cancel([COLON], a, b);
    RenderPrefixFree(m.value, n.value, s, t);
  }

  lemma {:induction false} MembersPrefixFree(ms: seq<Member>, ns: seq<Member>, s: Text, t: Text)
    requires Plain(Obj(ms)) && WellFormed(Obj(ms)) && Plain(Obj(ns)) && WellFormed(Obj(ns))
    requires Join(RenderMembers(ms)) + ([RBRACE] + s) == Join(RenderMembers(ns)) + ([RBRACE] + t)
    ensures ms == ns && s == t
    decreases ms, 0
  {
    hide RenderMember, Join, Plain, WellFormed;
    var s', t' := [RBRACE] + s, [RBRACE] + t;
    var ps, qs := RenderMembers(ms), RenderMembers(ns);
    MembersPlain(ms);
    MembersPlain(ns);
    MembersStart(ms, s);
    MembersStart(ns, t);
    if |ms| == 0 {
      Cancel([RBRACE], s, t);
    } else {
      JoinSplit(ps, s');
      JoinSplit(qs, t');
      MemberPrefixFree(ms[0], ns[0], AfterFirst(ps, s'), AfterFirst(qs, t'));
      if |ms| > 1 && |ns| > 1 {
        assert ps[1..] == RenderMembers(ms[1..]) && qs[1..] == RenderMembers(ns[1..]);
        Cancel([COMMA], Join(ps[1..]) + s', Join(qs[1..]) + t');
        MembersPrefixFree(ms[1..], ns[1..], s, t);
      } else {
        assert AfterFirst(ps, s')[0] == AfterFirst(qs, t')[0];
        Cancel([RBRACE], s, t);
      }
      assert ms == [ms[0]] + ms[1..] && ns == [ns[0]] + ns[1..];
    }
  }

  lemma MembersPlain(ms: seq<Member>)
    requires Plain(Obj(ms)) && WellFormed(Obj(ms))
    ensures |ms| > 0 ==>
              Plain(ms[0].value) && WellFormed(ms[0].value) && Plain(Obj(ms[1..])) && WellFormed(Obj(ms[1..]))
  {
  }

  lemma MembersStart(ms: seq<Member>, s: Text)
    ensures (Join(RenderMembers(ms)) + ([RBRACE] + s))[0] == RBRACE <==> |ms| == 0
    ensures |ms| == 0 ==> Join(RenderMembers(ms)) + ([RBRACE] + s) == [RBRACE] + s
  {
    hide Render;
    if |ms| > 0 {
      JoinSplit(RenderMembers(ms), [RBRACE] + s);
      assert RenderMember(ms[0])[0] == QUOTE;
    }
  }

  // ---------------------------------------------------------------------------------------
  // Sorted forms stay well-formed and plain, so rendering them is injective
  // ---------------------------------------------------------------------------------------

  ghost predicate KeepsShape(v: Json)
  {
    WellFormed(SortAll(v)) && (Plain(v) ==> Plain(SortAll(v)))
  }

  lemma SortAllKeepsObj(v: Json)
    requires v.Obj? && WellFormed(v) && forall j | 0 <= j < |v.members| :: KeepsShape(v.members[j].value)
    ensures KeepsShape(v)
  {
    hide SortAll, SortByKey, SortAllMembers;
    var ms := v.members;
    var r := SortByKey(SortAllMembers(ms));
    SortAllMembersSorted(ms);
    forall i | 0 <= i < |r| ensures WellFormed(r[i].value) && (Plain(v) ==> Plain(r[i].value)) {
      SortedMemberOf(ms, r[i]);
      assert r[i] in r;
      var j :| 0 <= j < |ms| && r[i] == Member(ms[j].key, SortAll(ms[j].value));
      assert KeepsShape(ms[j].value);
    }
    SortAllObj(v);
  }

  lemma {:induction false} SortAllKeeps(v: Json)
    requires WellFormed(v)
    ensures WellFormed(SortAll(v))
    ensures Plain(v) ==> Plain(SortAll(v))
    decreases v
  {
    if v.Arr? {
      forall i | 0 <= i < |v.items| { SortAllKeeps(v.items[i]); }
    } else if v.Obj? {
      hide SortAll;
      forall j | 0 <= j < |v.members| ensures KeepsShape(v.members[j].value) {
        SortAllKeeps(v.members[j].value);
      }
      SortAllKeepsObj(v);
    }
  }

  lemma SortAllObj(v: Json)
    requires v.Obj?
    ensures SortAll(v) == Obj(SortByKey(SortAllMembers(v.members)))
  {
  }

  /** For plain values: equal canonical text exactly when equal up to key order. */
  lemma CanonicalTextDecides(v: Json, w: Json)
    requires WellFormed(v) && Plain(v) && WellFormed(w) && Plain(w)
    ensures Render(SortAll(v)) == Render(SortAll(w)) <==> Same(v, w)
  {
    hide Render, SortAll;
    SameIffSortAll(v, w);
    SortAllKeeps(v);
    SortAllKeeps(w);
    if Render(SortAll(v)) == Render(SortAll(w)) {
      RenderPrefixFree(SortAll(v), SortAll(w), [], []);
    }
  }

  /** Sorting commutes with any change of the values. */
  lemma SortMapped(ms: seq<Member>, f: Json -> Json, b: seq<Member>)
    requires DistinctKeys(ms) && |b| == |ms|
    requires forall i | 0 <= i < |ms| :: b[i] == Member(ms[i].key, f(ms[i].value))
    ensures |SortByKey(b)| == |SortByKey(ms)| == |ms|
    ensures forall i | 0 <= i < |ms| :: SortByKey(b)[i] == Member(SortByKey(ms)[i].key, f(SortByKey(ms)[i].value))
  {
    hide SortByKey, Sorted, DistinctKeys;
    var a := SortByKey(ms);
    assert |multiset(a)| == |multiset(ms)| && |multiset(SortByKey(b))| == |multiset(b)|;
    SameKeysDistinct(ms, b);
    var t := seq(|a|, i requires 0 <= i < |a| => Member(a[i].key, f(a[i].value)));
    SortSorted(ms);
    SortSorted(b);
    KeysSorted(a, t);
    SameElements(a, ms);
    SameElements(SortByKey(b), b);
    forall m ensures m in t <==> m in b {
      if m in t { MappedMember(a, ms, f, t, b, m); }
      if m in b { MappedMember(ms, a, f, b, t, m); }
    }
    SortedUnique(t, SortByKey(b));
  }

  lemma MappedMember(a: seq<Member>, c: seq<Member>, f: Json -> Json, t: seq<Member>, b: seq<Member>, m: Member)
    requires forall x :: x in a <==> x in c
    requires |t| == |a| && forall i | 0 <= i < |a| :: t[i] == Member(a[i].key, f(a[i].value))
    requires |b| == |c| && forall i | 0 <= i < |c| :: b[i] == Member(c[i].key, f(c[i].value))
    requires m in t
    ensures m in b
  {
    var i :| 0 <= i < |t| && t[i] == m;
    assert a[i] in a;
    var j :| 0 <= j < |c| && c[j] == a[i];
    assert b[j] == m;
  }

  lemma SameKeysDistinct(ms: seq<Member>, b: seq<Member>)
    requires DistinctKeys(ms) && |b| == |ms| && forall i | 0 <= i < |ms| :: b[i].key == ms[i].key
    ensures DistinctKeys(b)
  {
  }

  lemma KeysSorted(a: seq<Member>, t: seq<Member>)
    requires Sorted(a) && |t| == |a| && forall i | 0 <= i < |a| :: t[i].key == a[i].key
    ensures Sorted(t)
  {
  }

  /** The index of a key, as `obj[k]` finds it. */
  function Lookup(ms: seq<Member>, k: Text): (i: nat)
    requires HasKey(ms, k)
    ensures i < |ms| && ms[i].key == k
  {
    if ms[0].key == k then 0 else
      assert HasKey(ms[1..], k) by {
        var i :| 0 <= i < |ms| && ms[i].key == k;
        assert ms[1..][i - 1].key == k;
      }
      1 + Lookup(ms[1..], k)
  }

  /** `Object.keys(obj).sort()`. */
  function SortedKeys(ms: seq<Member>): (ks: seq<Text>)
    ensures |ks| == |ms|
    ensures forall i | 0 <= i < |ks| :: HasKey(ms, ks[i])
  {
    var r := SortByKey(ms);
    SameElements(r, ms);
    assert |multiset(r)| == |multiset(ms)|;
    assert forall i | 0 <= i < |r| :: r[i] in ms;
    seq(|r|, i requires 0 <= i < |r| => r[i].key)
  }

  lemma LookupSorted(ms: seq<Member>, i: nat)
    requires DistinctKeys(ms) && i < |ms|
    ensures |SortByKey(ms)| == |ms| && SortedKeys(ms)[i] == SortByKey(ms)[i].key
    ensures HasKey(ms, SortedKeys(ms)[i])
    ensures ms[Lookup(ms, SortedKeys(ms)[i])] == SortByKey(ms)[i]
  {
    hide SortByKey;
    var r := SortByKey(ms);
    assert |multiset(r)| == |multiset(ms)|;
    SameElements(r, ms);
    assert r[i] in ms;
  }

  // ---------------------------------------------------------------------------------------
  // stableCanonicalJson
  // ---------------------------------------------------------------------------------------

  /** The intent printer; None stands for the TypeError `JSON.stringify` raises on a bigint. */
  function StableCanonicalJson(v: Json): (r: Option<Text>)
    decreases v, 2
  {
    match v
    case BigInt => None
    case Bool(b) => Some(if b then TRUE_TEXT else FALSE_TEXT)
    case Num(d) => Some(d)
    case Str(s) => Some(Quote(s))
    case Arr(xs) =>
      var parts := StableItems(xs);
      if parts.None? then None else Some([LBRACKET] + Join(parts.value) + [RBRACKET])
    case Obj(ms) =>
      var parts := StableEntries(ms, SortedKeys(ms));
      if parts.None? then None else Some([LBRACE] + Join(parts.value) + [RBRACE])
    case _ => Some(NULL_TEXT)
  }

  function StableItems(xs: seq<Json>): (r: Option<seq<Text>>)
    ensures r.Some? <==> forall i | 0 <= i < |xs| :: StableCanonicalJson(xs[i]).Some?
    ensures r.Some? ==> |r.value| == |xs|
    ensures r.Some? ==> forall i | 0 <= i < |xs| :: r.value[i] == StableCanonicalJson(xs[i]).value
    decreases xs, 0
  {
    if |xs| == 0 then Some([])
    else
      var h := StableCanonicalJson(xs[0]);
      var t := StableItems(xs[1..]);
      if h.None? || t.None? then None else Some([h.value] + t.value)
  }

  function StableEntries(ms: seq<Member>, ks: seq<Text>): (r: Option<seq<Text>>)
    requires forall i | 0 <= i < |ks| :: HasKey(ms, ks[i])
    ensures r.Some? <==> forall i | 0 <= i < |ks| :: StableCanonicalJson(ms[Lookup(ms, ks[i])].value).Some?
    ensures r.Some? ==> |r.value| == |ks|
    ensures r.Some? ==> forall i | 0 <= i < |ks| ::
              r.value[i] == Quote(ks[i]) + [COLON] + StableCanonicalJson(ms[Lookup(ms, ks[i])].value).value
    decreases ms, 1, |ks|
  {
    if |ks| == 0 then Some([])
    else
      var h := StableCanonicalJson(ms[Lookup(ms, ks[0])].value);
      var t := StableEntries(ms, ks[1..]);
      if h.None? || t.None? then None else Some([Quote(ks[0]) + [COLON] + h.value] + t.value)
  }

  /** How the intent printer reads a value: `undefined` and non-finite numbers become null. */
  function StableRead(v: Json): (r: Json)
    decreases v, 1
  {
    match v
    case Undefined => Null
    case NonFinite => Null
    case Arr(xs) => Arr(StableReadItems(xs))
    case Obj(ms) => Obj(StableReadMembers(ms))
    case _ => v
  }

  function StableReadItems(xs: seq<Json>): (r: seq<Json>)
    ensures |r| == |xs| && forall i | 0 <= i < |xs| :: r[i] == StableRead(xs[i])
    decreases xs, 0
  {
    if |xs| == 0 then [] else [StableRead(xs[0])] + StableReadItems(xs[1..])
  }

  function StableReadMembers(ms: seq<Member>): (r: seq<Member>)
    ensures |r| == |ms| && forall i | 0 <= i < |ms| :: r[i] == Member(ms[i].key, StableRead(ms[i].value))
    decreases ms, 0
  {
    if |ms| == 0 then [] else [Member(ms[0].key, StableRead(ms[0].value))] + StableReadMembers(ms[1..])
  }

  lemma {:induction false} StableReadKeeps(v: Json)
    requires WellFormed(v)
    ensures WellFormed(StableRead(v))
    decreases v
  {
    match v
    case Arr(xs) => forall i | 0 <= i < |xs| { StableReadKeeps(xs[i]); }
    case Obj(ms) => forall i | 0 <= i < |ms| { StableReadKeeps(ms[i].value); }
    case _ =>
  }

  ghost predicate StableIs(v: Json)
  {
    && (StableCanonicalJson(v).Some? <==> Plain(StableRead(v)))
    && (StableCanonicalJson(v).Some? ==> StableCanonicalJson(v).value == Render(SortAll(StableRead(v))))
  }

  /** The printer's text is the rendering of the sorted reading; it fails exactly on bigints. */
  lemma {:induction false} StableIsRender(v: Json)
    requires WellFormed(v)
    ensures StableIs(v)
    decreases v
  {
    match v
    case Arr(xs) =>
      forall i | 0 <= i < |xs| ensures StableIs(xs[i]) { StableIsRender(xs[i]); }
      StableArr(v);
    case Obj(ms) =>
      forall i | 0 <= i < |ms| ensures StableIs(ms[i].value) { StableIsRender(ms[i].value); }
      StableObj(v);
    case _ =>
  }

  lemma StableArr(v: Json)
    requires v.Arr? && forall i | 0 <= i < |v.items| :: StableIs(v.items[i])
    ensures StableIs(v)
  {
    var xs := v.items;
    if StableCanonicalJson(v).Some? {
      assert StableItems(xs).value == RenderItems(SortAllItems(StableReadItems(xs)));
    }
  }

  lemma StableObj(v: Json)
    requires v.Obj? && WellFormed(v) && forall i | 0 <= i < |v.members| :: StableIs(v.members[i].value)
    ensures StableIs(v)
  {
    hide SortByKey, SortAll, StableRead, StableIs;
    var ms := v.members;
    var ks := SortedKeys(ms);
    var e := StableEntries(ms, ks);
    var a := SortByKey(ms);
    var b := SortAllMembers(StableReadMembers(ms));
    SortMapped(ms, x => SortAll(StableRead(x)), b);
    forall i | 0 <= i < |ms| ensures
      && ks[i] == a[i].key && HasKey(ms, ks[i]) && ms[Lookup(ms, ks[i])] == a[i]
    {
      LookupSorted(ms, i);
    }
    StableObjSome(v);
    if e.Some? {
      var rs := RenderMembers(SortByKey(b));
      forall i | 0 <= i < |ms| ensures e.value[i] == rs[i] {
        StableIsText(ms[Lookup(ms, ks[i])].value);
      }
      assert e.value == rs;
    }
    StableObjUnfold(v);
  }

  lemma StableIsText(x: Json)
    requires StableIs(x) && StableCanonicalJson(x).Some?
    ensures StableCanonicalJson(x).value == Render(SortAll(StableRead(x)))
  {
  }

  lemma SortedPlace(ms: seq<Member>, j: nat) returns (i: nat)
    requires j < |ms|
    ensures i < |SortByKey(ms)| == |ms| && SortByKey(ms)[i] == ms[j]
  {
    hide SortByKey;
    assert |multiset(SortByKey(ms))| == |multiset(ms)|;
    SameElements(SortByKey(ms), ms);
    assert ms[j] in SortByKey(ms);
    i :| 0 <= i < |SortByKey(ms)| && SortByKey(ms)[i] == ms[j];
  }

  lemma EntryAt(ms: seq<Member>, ks: seq<Text>, i: nat, j: nat)
    requires forall i | 0 <= i < |ks| :: HasKey(ms, ks[i])
    requires StableEntries(ms, ks).Some? && i < |ks| && j < |ms| && ms[Lookup(ms, ks[i])] == ms[j]
    ensures StableCanonicalJson(ms[j].value).Some?
  {
    hide *;
  }

  /** Entries for all the sorted keys exist only when every member prints. */
  lemma EntryPrints(ms: seq<Member>, j: nat)
    requires DistinctKeys(ms) && j < |ms|
    requires StableEntries(ms, SortedKeys(ms)).Some?
    ensures StableCanonicalJson(ms[j].value).Some?
  {
    hide *;
    var i := SortedPlace(ms, j);
    LookupSorted(ms, i);
    EntryAt(ms, SortedKeys(ms), i, j);
  }

  lemma StableEntriesPlain(v: Json)
    requires v.Obj? && WellFormed(v) && forall i | 0 <= i < |v.members| :: StableIs(v.members[i].value)
    requires StableEntries(v.members, SortedKeys(v.members)).Some?
    ensures Plain(StableRead(v))
  {
    hide StableCanonicalJson, SortByKey, SortedKeys, StableEntries;
    var ms := v.members;
    forall j | 0 <= j < |ms| ensures Plain(StableReadMembers(ms)[j].value) {
      EntryPrints(ms, j);
      assert StableIs(ms[j].value);
    }
  }

  lemma StableObjSome(v: Json)
    requires v.Obj? && WellFormed(v) && forall i | 0 <= i < |v.members| :: StableIs(v.members[i].value)
    ensures StableEntries(v.members, SortedKeys(v.members)).Some? <==> Plain(StableRead(v))
  {
    hide WellFormed, StableCanonicalJson;
    var ms := v.members;
    if Plain(StableRead(v)) {
      forall i | 0 <= i < |ms| ensures StableCanonicalJson(ms[i].value).Some? {
        assert StableIs(ms[i].value);
        assert StableReadMembers(ms)[i].value == StableRead(ms[i].value);
      }
    }
    if StableEntries(ms, SortedKeys(ms)).Some? {
      StableEntriesPlain(v);
    }
  }

  lemma StableObjUnfold(v: Json)
    requires v.Obj?
    requires var e := StableEntries(v.members, SortedKeys(v.members));
             && (e.Some? <==> Plain(StableRead(v)))
             && (e.Some? ==> e.value == RenderMembers(SortByKey(SortAllMembers(StableReadMembers(v.members)))))
    ensures StableIs(v)
  {
  }

  /** `stableCanonicalJson` gives two values one text exactly when they are equal up to key
      order once `undefined` (and a non-finite number) is read as null. */
  lemma StableCanonicalJsonDecides(v: Json, w: Json)
    requires WellFormed(v) && WellFormed(w)
    requires StableCanonicalJson(v).Some? && StableCanonicalJson(w).Some?
    ensures StableCanonicalJson(v) == StableCanonicalJson(w) <==> Same(StableRead(v), StableRead(w))
  {
    hide StableCanonicalJson, StableRead, Render, SortAll, Same;
    StableIsRender(v);
    StableIsRender(w);
    StableReadKeeps(v);
    StableReadKeeps(w);
    CanonicalTextDecides(StableRead(v), StableRead(w));
  }

  // ---------------------------------------------------------------------------------------
  // canonicalize
  // ---------------------------------------------------------------------------------------

  /** How the audit printer reads a value: object members whose value is `undefined` vanish. */
  function AuditRead(v: Json): (r: Json)
    decreases v, 1
  {
    match v
    case Arr(xs) => Arr(AuditReadItems(xs))
    case Obj(ms) => Obj(AuditReadMembers(ms))
    case _ => v
  }

  function AuditReadItems(xs: seq<Json>): (r: seq<Json>)
    ensures |r| == |xs| && forall i | 0 <= i < |xs| :: r[i] == AuditRead(xs[i])
    decreases xs, 0
  {
    if |xs| == 0 then [] else [AuditRead(xs[0])] + AuditReadItems(xs[1..])
  }

  function AuditReadMembers(ms: seq<Member>): (r: seq<Member>)
    decreases ms, 0
  {
    if |ms| == 0 then [] else AuditReadMember(ms[0]) + AuditReadMembers(ms[1..])
  }

  function AuditReadMember(m: Member): (r: seq<Member>)
    decreases m, 0
  {
    if m.value.Undefined? then [] else [Member(m.key, AuditRead(m.value))]
  }

  lemma {:induction false} AuditMemberOf(ms: seq<Member>, m: Member)
    ensures m in AuditReadMembers(ms)
            <==> exists i | 0 <= i < |ms| :: m in AuditReadMember(ms[i])
  {
    if |ms| > 0 {
      AuditMemberOf(ms[1..], m);
      if m in AuditReadMembers(ms[1..]) {
        var i :| 0 <= i < |ms[1..]| && m in AuditReadMember(ms[1..][i]);
        assert m in AuditReadMember(ms[i + 1]);
      }
      if i :| 0 <= i < |ms| && m in AuditReadMember(ms[i]) {
        if i > 0 { assert ms[1..][i - 1] == ms[i]; }
      }
    }
  }

  lemma {:induction false} AuditReadAppend(a: seq<Member>, m: Member)
    ensures AuditReadMembers(a + [m]) == AuditReadMembers(a) + AuditReadMember(m)
  {
    if |a| > 0 {
      assert (a + [m])[1..] == a[1..] + [m];
      AuditReadAppend(a[1..], m);
    } else {
      assert (a + [m])[1..] == [];
    }
  }

  lemma {:induction false} AuditDistinct(ms: seq<Member>)
    requires DistinctKeys(ms)
    ensures DistinctKeys(AuditReadMembers(ms))
  {
    if |ms| > 0 {
      AuditDistinct(ms[1..]);
      var h, t := AuditReadMember(ms[0]), AuditReadMembers(ms[1..]);
      forall j | 0 <= j < |t| ensures t[j].key != ms[0].key {
        AuditMemberOf(ms[1..], t[j]);
        assert t[j] in t;
      }
    }
  }

  lemma {:induction false} AuditReadKeeps(v: Json)
    requires WellFormed(v)
    ensures WellFormed(AuditRead(v))
    decreases v
  {
    match v
    case Arr(xs) => forall i | 0 <= i < |xs| { AuditReadKeeps(xs[i]); }
    case Obj(ms) =>
      AuditDistinct(ms);
      var r := AuditReadMembers(ms);
      forall j | 0 <= j < |r| ensures WellFormed(r[j].value) {
        assert r[j] in r;
        AuditMemberOf(ms, r[j]);
        var i :| 0 <= i < |ms| && r[j] in AuditReadMember(ms[i]);
        AuditReadKeeps(ms[i].value);
      }
    case _ =>
  }

  lemma {:induction false} AuditReadPlain(v: Json)
    requires Plain(v)
    ensures Plain(AuditRead(v))
    decreases v
  {
    if v.Arr? {
      forall i | 0 <= i < |v.items| { AuditReadPlain(v.items[i]); }
    } else if v.Obj? {
      forall i | 0 <= i < |v.members| ensures Plain(AuditRead(v.members[i].value)) {
        AuditReadPlain(v.members[i].value);
      }
      ReadMembersPlain(v.members);
    }
  }

  lemma {:induction false} ReadMembersPlain(ms: seq<Member>)
    requires forall i | 0 <= i < |ms| :: Plain(AuditRead(ms[i].value))
    ensures forall i | 0 <= i < |AuditReadMembers(ms)| :: Plain(AuditReadMembers(ms)[i].value)
  {
    if |ms| > 0 { ReadMembersPlain(ms[1..]); }
  }

  /** The audit printer: None stands for every thrown error (non-finite number, bigint,
      `undefined` at the root or inside an array). */
  ghost function Canonical(v: Json): (r: Option<Text>)
  {
    if Plain(AuditRead(v)) then Some(Render(SortAll(AuditRead(v)))) else None
  }

  /** Dropping undefined members before or after sorting gives the same object. */
  lemma {:induction false} SortThenDrop(ms: seq<Member>)
    requires DistinctKeys(ms)
    ensures SortAllMembers(AuditReadMembers(SortByKey(ms))) == SortByKey(SortAllMembers(AuditReadMembers(ms)))
  {
    hide SortByKey, SortAll, AuditRead, AuditReadMembers, SortAllMembers, AuditReadMember, Sorted, DistinctKeys;
    var s, d := SortByKey(ms), AuditReadMembers(ms);
    var a, b := SortAllMembers(AuditReadMembers(s)), SortByKey(SortAllMembers(d));
    SortSorted(ms);
    DropSorted(s);
    KeysSorted(AuditReadMembers(s), a);
    AuditDistinct(ms);
    SortAllMembersSorted(d);
    SameElements(s, ms);
    forall m ensures m in a <==> m in b {
      SortedMemberOf(d, m);
      DropElements(s, ms, m);
    }
    SortedUnique(a, b);
  }

  lemma DropElements(s: seq<Member>, ms: seq<Member>, m: Member)
    requires forall x :: x in s <==> x in ms
    ensures m in SortAllMembers(AuditReadMembers(s))
            <==> IsSortedCopy(m, AuditReadMembers(ms))
  {
    hide AuditReadMembers, SortAllMembers, SortAll, AuditReadMember;
    var a, d := AuditReadMembers(s), AuditReadMembers(ms);
    SameDropped(s, ms);
    if m in SortAllMembers(a) {
      var i :| 0 <= i < |a| && SortAllMembers(a)[i] == m;
      assert a[i] in a;
      var j :| 0 <= j < |d| && d[j] == a[i];
      assert m == Member(d[j].key, SortAll(d[j].value));
    }
    if j :| 0 <= j < |d| && m == Member(d[j].key, SortAll(d[j].value)) {
      assert d[j] in d;
      var i :| 0 <= i < |a| && a[i] == d[j];
      assert SortAllMembers(a)[i] == Member(a[i].key, SortAll(a[i].value)) == m;
    }
  }

  lemma SameDropped(s: seq<Member>, ms: seq<Member>)
    requires forall x :: x in s <==> x in ms
    ensures forall x :: x in AuditReadMembers(s) <==> x in AuditReadMembers(ms)
  {
    forall x ensures x in AuditReadMembers(s) <==> x in AuditReadMembers(ms) {
      AuditMemberOf(s, x);
      AuditMemberOf(ms, x);
      if i :| 0 <= i < |s| && x in AuditReadMember(s[i]) {
        assert s[i] in ms;
        var j :| 0 <= j < |ms| && ms[j] == s[i];
        assert x in AuditReadMember(ms[j]);
      }
      if i :| 0 <= i < |ms| && x in AuditReadMember(ms[i]) {
        assert ms[i] in s;
        var j :| 0 <= j < |s| && s[j] == ms[i];
        assert x in AuditReadMember(s[j]);
      }
    }
  }

  lemma {:induction false} DropSorted(s: seq<Member>)
    requires Sorted(s)
    ensures Sorted(AuditReadMembers(s))
  {
    if |s| > 0 {
      DropSorted(s[1..]);
      var t := AuditReadMembers(s[1..]);
      forall j | 0 <= j < |t| ensures Lt(s[0].key, t[j].key) {
        AuditMemberOf(s[1..], t[j]);
        assert t[j] in t;
      }
    }
  }

  /** `stringify`: structural recursion, with the loops of its array and object cases below. */
  method Stringify(v: Json) returns (r: Option<Text>)
    requires WellFormed(v)
    ensures r == Canonical(v)
    decreases v, 1
  {
    match v
    case Null => return Some(NULL_TEXT);
    case Bool(b) => return Some(if b then TRUE_TEXT else FALSE_TEXT);
    case Num(d) => return Some(d);
    case Str(s) => return Some(Quote(s));
    case Arr(xs) => r := StringifyArray(xs);
    case Obj(ms) => r := StringifyObject(ms);
    case _ => return None;
  }

  method StringifyArray(xs: seq<Json>) returns (r: Option<Text>)
    requires WellFormed(Arr(xs))
    ensures r == Canonical(Arr(xs))
    decreases Arr(xs), 0
  {
    hide Canonical;
    var parts: seq<Text> := [];
    for i := 0 to |xs|
      invariant |parts| == i
      invariant forall j | 0 <= j < i :: Canonical(xs[j]) == Some(parts[j])
    {
      var p := Stringify(xs[i]);
      if p.None? {
        ArrThrows(xs, i);
        return None;
      }
      parts := parts + [p.value];
    }
    ArrText(xs, parts);
    return Some([LBRACKET] + Join(parts) + [RBRACKET]);
  }

  method StringifyObject(ms: seq<Member>) returns (r: Option<Text>)
    requires WellFormed(Obj(ms))
    ensures r == Canonical(Obj(ms))
    decreases Obj(ms), 0
  {
    hide Canonical, EntriesOf, SortByKey, Lookup, Quote, Join;
    var keys := SortedKeys(ms);
    ghost var s := SortByKey(ms);
    assert |multiset(s)| == |multiset(ms)|;
    var parts: seq<Text> := [];
    NoEntries();
    for i := 0 to |keys|
      invariant EntriesOf(s[..i], parts)
    {
      LookupSorted(ms, i);
      var m := ms[Lookup(ms, keys[i])];
      assert s[..i + 1] == s[..i] + [m];
      if m.value.Undefined? {
        EntrySkipped(s[..i], m, parts);
        continue;
      }
      var p := Stringify(m.value);
      if p.None? {
        ObjThrows(ms, Lookup(ms, keys[i]));
        return None;
      }
      EntryAdded(s[..i], m, parts, p.value);
      parts := parts + [Quote(keys[i]) + [COLON] + p.value];
    }
    assert s[..|keys|] == s;
    ObjText(ms, parts);
    return Some([LBRACE] + Join(parts) + [RBRACE]);
  }

  lemma NoEntries()
    ensures EntriesOf([], [])
  {
  }

  lemma ArrThrows(xs: seq<Json>, i: nat)
    requires i < |xs| && Canonical(xs[i]).None?
    ensures Canonical(Arr(xs)).None?
  {
    assert AuditReadItems(xs)[i] == AuditRead(xs[i]);
  }

  lemma ArrText(xs: seq<Json>, parts: seq<Text>)
    requires |parts| == |xs| && forall j | 0 <= j < |xs| :: Canonical(xs[j]) == Some(parts[j])
    ensures Canonical(Arr(xs)) == Some([LBRACKET] + Join(parts) + [RBRACKET])
  {
    hide Join;
    forall j | 0 <= j < |xs|
      ensures Plain(AuditReadItems(xs)[j]) && Render(SortAll(AuditReadItems(xs)[j])) == parts[j]
    {
      hide Plain, Render, SortAll, AuditRead;
      assert Canonical(xs[j]) == Some(parts[j]);
    }
    assert parts == RenderItems(SortAllItems(AuditReadItems(xs)));
  }

  lemma ObjThrows(ms: seq<Member>, i: nat)
    requires i < |ms| && !ms[i].value.Undefined? && Canonical(ms[i].value).None?
    ensures Canonical(Obj(ms)).None?
  {
    var m := Member(ms[i].key, AuditRead(ms[i].value));
    AuditMemberOf(ms, m);
    assert m in AuditReadMember(ms[i]);
    var j :| 0 <= j < |AuditReadMembers(ms)| && AuditReadMembers(ms)[j] == m;
  }

  /** `parts` are the printed entries of a run of sorted members. */
  ghost predicate EntriesOf(s: seq<Member>, parts: seq<Text>)
  {
    && Plain(Obj(AuditReadMembers(s)))
    && parts == RenderMembers(SortAllMembers(AuditReadMembers(s)))
  }

  lemma EntrySkipped(s: seq<Member>, m: Member, parts: seq<Text>)
    requires EntriesOf(s, parts) && m.value.Undefined?
    ensures EntriesOf(s + [m], parts)
  {
    hide Plain, Render;
    AuditReadAppend(s, m);
    assert AuditReadMembers(s) + [] == AuditReadMembers(s);
  }

  lemma EntryAdded(s: seq<Member>, m: Member, parts: seq<Text>, p: Text)
    requires EntriesOf(s, parts) && !m.value.Undefined? && Canonical(m.value) == Some(p)
    ensures EntriesOf(s + [m], parts + [Quote(m.key) + [COLON] + p])
  {
    hide Render, SortAll, Quote, AuditRead, AuditReadMembers;
    AuditReadAppend(s, m);
    var a := AuditReadMembers(s);
    var n := Member(m.key, AuditRead(m.value));
    RenderAppend(a, n);
  }

  lemma RenderAppend(a: seq<Member>, n: Member)
    ensures RenderMembers(SortAllMembers(a + [n]))
         == RenderMembers(SortAllMembers(a)) + [Quote(n.key) + [COLON] + Render(SortAll(n.value))]
  {
    hide Render, SortAll, Quote;
    assert SortAllMembers(a + [n]) == SortAllMembers(a) + [Member(n.key, SortAll(n.value))];
  }

  lemma ObjText(ms: seq<Member>, parts: seq<Text>)
    requires WellFormed(Obj(ms)) && EntriesOf(SortByKey(ms), parts)
    ensures Canonical(Obj(ms)) == Some([LBRACE] + Join(parts) + [RBRACE])
  {
    hide Render, SortByKey, SortAllMembers, Join, AuditReadMembers;
    SortThenDrop(ms);
    var d, s := AuditReadMembers(ms), AuditReadMembers(SortByKey(ms));
    SameElements(SortByKey(ms), ms);
    SameDropped(SortByKey(ms), ms);
    forall i | 0 <= i < |d| ensures Plain(d[i].value) {
      assert d[i] in d;
      var j :| 0 <= j < |s| && s[j] == d[i];
    }
    ObjTextUnfold(ms, parts);
  }

  lemma ObjTextUnfold(ms: seq<Member>, parts: seq<Text>)
    requires Plain(Obj(AuditReadMembers(ms)))
    requires parts == RenderMembers(SortByKey(SortAllMembers(AuditReadMembers(ms))))
    ensures Canonical(Obj(ms)) == Some([LBRACE] + Join(parts) + [RBRACE])
  {
    hide SortByKey, SortAllMembers, Join, AuditReadMembers;
  }

  /** `canonicalize` gives two values one text exactly when they are equal up to key order and
      undefined members. */
  lemma CanonicalizeDecides(v: Json, w: Json)
    requires WellFormed(v) && WellFormed(w)
    requires Canonical(v).Some? && Canonical(w).Some?
    ensures Canonical(v) == Canonical(w) <==> Same(AuditRead(v), AuditRead(w))
  {
    hide AuditRead, Render, SortAll, Same;
    AuditReadKeeps(v);
    AuditReadKeeps(w);
    CanonicalTextDecides(AuditRead(v), AuditRead(w));
  }
}
