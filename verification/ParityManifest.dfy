/** The parity manifest: a validator whose findings are either hard or about canonical form, and the
    renderer that must repair exactly the form. The rendered text is the fixed pretty-printing of the
    value `Format` gives, so the results here are stated on that value. */
module ParityManifest {
  import opened Wrappers
  import opened Utf16
  import opened CanonicalJson
  import A = AuditChain

  datatype Code = Invalid | RowOrder | KeyOrder

  /** The checks that do not depend on the order of rows or keys: `date` is isCalendarDate, `kebab` the
      capability-id pattern; of what the validator asks of one row besides the checks spelled out below,
      `headOk` is the part before its classification is known to be one (provider, name and notes) and
      `restOk` the part after (source, date and axes), given the fields and the snapshot date. */
  datatype Vocabulary = Vocabulary(
    date: Text -> bool, kebab: Text -> bool,
    headOk: map<Text, Json> -> bool, restOk: (map<Text, Json>, Option<Json>) -> bool)

  // ---------------------------------------------------------------------------------------
  // Fixed names
  // ---------------------------------------------------------------------------------------

  function Surfaces(): seq<Text>
  {
    [A.Key("OPENAI_API"), A.Key("ANTHROPIC_API"), A.Key("CODEX"), A.Key("CLAUDE_CODE"),
     A.Key("CHATGPT_APP"), A.Key("CLAUDE_APP"), A.Key("CODEX_APP"), A.Key("CLAUDE_CODE_APP")]
  }

  function Classifications(): seq<Text>
  {
    [A.Key("FULL"), A.Key("PARTIAL"), A.Key("MISSING"), A.Key("PRODUCT_ONLY"), A.Key("PROVIDER_NOT_EXPOSED"),
     A.Key("BLOCKED_BY_GOVAI"), A.Key("NOT_APPLICABLE")]
  }

  function Statuses(): seq<Text>
  {
    [A.Key("GA"), A.Key("BETA"), A.Key("EXPERIMENTAL"), A.Key("DEPRECATED"), A.Key("PRODUCT_ONLY"), A.Key("UNKNOWN")]
  }

  function SourceTypes(): seq<Text>
  {
    [A.Key("api-reference"), A.Key("guide"), A.Key("changelog"), A.Key("product-page")]
  }

  function Stabilities(): seq<Text> { [A.Key("stable"), A.Key("experimental"), A.Key("unstable")] }

  function RiskClasses(): seq<Text> { [A.Key("A"), A.Key("B"), A.Key("C"), A.Key("D"), A.Key("E")] }

  function SurfaceName(): Text { A.Key("surface") }

  function FamilyName(): Text { A.Key("family") }

  function IdName(): Text { A.Key("capability_id") }

  function RowFields(): seq<Text>
  {
    [A.Key("provider"), SurfaceName(), FamilyName(), IdName(), A.Key("capability_name"),
     A.Key("official_status"), A.Key("protocol_stability"), A.Key("official_source"), A.Key("source_type"),
     A.Key("verified_at"), A.Key("model_constraints"), A.Key("provider_exposed"), A.Key("govai_registered"),
     A.Key("native_route_available"), A.Key("native_tested"), A.Key("native_live_accepted"),
     A.Key("governed_applicable"), A.Key("governed_route_available"), A.Key("governed_tested"),
     A.Key("governed_live_accepted"), A.Key("ui_exposed"), A.Key("ui_tested"), A.Key("ui_live_accepted"),
     A.Key("evidence_wired"), A.Key("exact_turn_evidence_correlation"), A.Key("persistence_supported"),
     A.Key("resume_supported"), A.Key("fork_supported"), A.Key("risk_class_if_known"),
     A.Key("govai_product_equivalent_required"), A.Key("classification"), A.Key("notes")]
  }

  function SnapshotName(): Text { A.Key("research_snapshot_date") }

  function CountName(): Text { A.Key("capability_count") }

  function CapabilitiesName(): Text { A.Key("capabilities") }

  /** The root fields that hold one value. */
  function ScalarFields(): seq<Text>
  {
    [A.Key("schema_version"), A.Key("name"), A.Key("description"), SnapshotName(), A.Key("source_anchor"),
     A.Key("verify"), A.Key("doc")]
  }

  function RootFields(): seq<Text> { ScalarFields() + [CountName(), CapabilitiesName()] }

  // ---------------------------------------------------------------------------------------
  // Objects
  // ---------------------------------------------------------------------------------------

  /** `o[k]`; None is undefined. */
  function Find(ms: seq<Member>, k: Text): Option<Json>
  {
    if |ms| == 0 then None else if ms[0].key == k then Some(ms[0].value) else Find(ms[1..], k)
  }

  function KeysOf(ms: seq<Member>): seq<Text> { seq(|ms|, i requires 0 <= i < |ms| => ms[i].key) }

  function FieldsOf(ms: seq<Member>): map<Text, Json>
  {
    map k | k in KeysOf(ms) && Find(ms, k).Some? :: Find(ms, k).value
  }

  function Value(ms: seq<Member>, k: Text): Json
  {
    var f := Find(ms, k);
    if f.Some? then f.value else Undefined
  }

  /** The object with the given fields, in the given order. */
  function Rebuild(fs: seq<Text>, ms: seq<Member>): (r: seq<Member>)
    ensures |r| == |fs|
  {
    if |fs| == 0 then [] else [Member(fs[0], Value(ms, fs[0]))] + Rebuild(fs[1..], ms)
  }

  /** `String(x)` of a parsed JSON value: an array is joined from its items, and an object with a property
      of its own named toString is not callable there, so the conversion throws. */
  function StringOf(v: Json): (r: Option<Text>)
    ensures r.None? <==> HasToString(v)
    decreases v, 0
  {
    match v
    case Undefined => Some(A.Key("undefined"))
    case NonFinite => Some(A.Key("NaN"))
    case BigInt => Some([])
    case Null => Some(A.Key("null"))
    case Bool(b) => Some(if b then A.Key("true") else A.Key("false"))
    case Num(d) => Some(d)
    case Str(t) => Some(t)
    case Arr(xs) => JoinedText(xs)
    case Obj(ms) => if A.Key("toString") in KeysOf(ms) then None else Some(A.Key("[object Object]"))
  }

  function JoinedText(xs: seq<Json>): (r: Option<Text>)
    ensures r.None? <==> exists i | 0 <= i < |xs| :: HasToString(xs[i])
    decreases xs, 1
  {
    if |xs| == 0 then Some([])
    else
      var head := if xs[0].Null? || xs[0].Undefined? then Some([]) else StringOf(xs[0]);
      var tail := JoinedText(xs[1..]);
      assert forall i | 0 < i < |xs| :: xs[i] == xs[1..][i - 1];
      if head.None? || tail.None? then None
      else Some(head.value + (if |xs| == 1 then [] else [COMMA] + tail.value))
  }

  /** An object with a property of its own named toString, alone or somewhere in an array. */
  predicate HasToString(v: Json)
  {
    match v
    case Obj(ms) => A.Key("toString") in KeysOf(ms)
    case Arr(xs) => exists i | 0 <= i < |xs| :: HasToString(xs[i])
    case _ => false
  }

  predicate IsText(j: Option<Json>) { j.Some? && j.value.Str? }

  predicate IsFilled(j: Option<Json>) { IsText(j) && |j.value.s| > 0 }

  // ---------------------------------------------------------------------------------------
  // The validator
  // ---------------------------------------------------------------------------------------

  function Flag(c: bool, code: Code): seq<Code> { if c then [code] else [] }

  predicate IsAnchor(t: Text)
  {
    |t| == 40 && forall i | 0 <= i < 40 :: 48 <= t[i] <= 57 || 97 <= t[i] <= 102
  }

  predicate KnownRoot(ms: seq<Member>) { forall i | 0 <= i < |ms| :: ms[i].key in RootFields() }

  predicate IsSnapshot(v: Vocabulary, j: Option<Json>) { IsText(j) && v.date(j.value.s) }

  predicate IsAnchorText(j: Option<Json>) { IsText(j) && IsAnchor(j.value.s) }

  function RootFindings(v: Vocabulary, ms: seq<Member>): seq<Code>
  {
    Flag(!KnownRoot(ms), Invalid)
    + Flag(Find(ms, A.Key("schema_version")) != Some(Num([49])), Invalid)
    + Flag(Find(ms, A.Key("name")) != Some(Str(A.Key("native-experience-parity-v1"))), Invalid)
    + Flag(!IsSnapshot(v, Find(ms, SnapshotName())), Invalid)
    + Flag(!IsAnchorText(Find(ms, A.Key("source_anchor"))), Invalid)
    + Flag(!IsFilled(Find(ms, A.Key("description"))), Invalid)
    + Flag(!IsFilled(Find(ms, A.Key("verify"))), Invalid)
    + Flag(!IsFilled(Find(ms, A.Key("doc"))), Invalid)
  }

  /** No field missing, none unknown. */
  predicate ExactKeys(ms: seq<Member>)
  {
    && (forall f | f in RowFields() :: f in KeysOf(ms))
    && (forall k | k in KeysOf(ms) :: k in RowFields())
    && |ms| == |RowFields()|
  }

  function KeyFindings(ms: seq<Member>): seq<Code>
  {
    if !ExactKeys(ms) then [Invalid] else Flag(KeysOf(ms) != RowFields(), KeyOrder)
  }

  predicate OneOf(j: Option<Json>, vocabulary: seq<Text>) { IsText(j) && j.value.s in vocabulary }

  predicate NullOrOneOf(j: Option<Json>, vocabulary: seq<Text>) { j == Some(Null) || OneOf(j, vocabulary) }

  predicate IsSurface(j: Option<Json>) { OneOf(j, Surfaces()) }

  function StatusOf(ms: seq<Member>): Option<Json> { Find(ms, A.Key("official_status")) }

  function ClassOf(ms: seq<Member>): Option<Json> { Find(ms, A.Key("classification")) }

  function SourceOf(ms: seq<Member>): Option<Json> { Find(ms, A.Key("source_type")) }

  function StabilityOf(ms: seq<Member>): Option<Json> { Find(ms, A.Key("protocol_stability")) }

  function RiskOf(ms: seq<Member>): Option<Json> { Find(ms, A.Key("risk_class_if_known")) }

  predicate IsId(v: Vocabulary, j: Option<Json>) { IsText(j) && v.kebab(j.value.s) }

  function RowKey(surface: Text, id: Text): Text { surface + [47] + id }

  /** The findings about a row with a valid surface; `isNew` says that its id is one, and new. */
  function FieldFindings(v: Vocabulary, ms: seq<Member>, isNew: bool, snapshot: Option<Json>): seq<Code>
  {
    Flag(!v.headOk(FieldsOf(ms)), Invalid) + Flag(!isNew, Invalid) + Flag(!IsFilled(Find(ms, FamilyName())), Invalid)
    + Flag(!OneOf(StatusOf(ms), Statuses()), Invalid)
    + (if !OneOf(ClassOf(ms), Classifications()) then [Invalid] else RestFindings(v, ms, snapshot))
  }

  function RestFindings(v: Vocabulary, ms: seq<Member>, snapshot: Option<Json>): seq<Code>
  {
    Flag(!OneOf(SourceOf(ms), SourceTypes()), Invalid) + Flag(!NullOrOneOf(StabilityOf(ms), Stabilities()), Invalid)
    + Flag(!NullOrOneOf(RiskOf(ms), RiskClasses()), Invalid) + Flag(!v.restOk(FieldsOf(ms), snapshot), Invalid)
  }

  /** What one row adds to the findings, and the ids seen after it. An array is an object to the
      validator, one that has none of the fields. */
  function RowFindings(v: Vocabulary, row: Json, snapshot: Option<Json>, seen: set<Text>): (seq<Code>, set<Text>)
  {
    if row.Arr? then ([Invalid, Invalid], seen)
    else if !row.Obj? then ([Invalid], seen)
    else
      var ms := row.members;
      var surface, id := Find(ms, SurfaceName()), Find(ms, IdName());
      if !IsSurface(surface) then (KeyFindings(ms) + [Invalid], seen)
      else if !IsId(v, id) then (KeyFindings(ms) + FieldFindings(v, ms, false, snapshot), seen)
      else
        var key := RowKey(surface.value.s, id.value.s);
        (KeyFindings(ms) + FieldFindings(v, ms, key !in seen, snapshot), seen + {key})
  }

  function RowsFindings(v: Vocabulary, rows: seq<Json>, snapshot: Option<Json>): (seq<Code>, set<Text>)
  {
    if |rows| == 0 then ([], {})
    else
      var (before, seen) := RowsFindings(v, rows[..|rows| - 1], snapshot);
      var (now, seen') := RowFindings(v, rows[|rows| - 1], snapshot, seen);
      (before + now, seen')
  }

  datatype Place = Place(surface: nat, family: Text, id: Text)

  function IndexIn(t: Text, ts: seq<Text>): (i: nat)
    ensures i <= |ts| && (t in ts <==> i < |ts|) && (i < |ts| ==> ts[i] == t)
  {
    if |ts| == 0 then 0 else if ts[0] == t then 0 else 1 + IndexIn(t, ts[1..])
  }

  function SurfaceRank(t: Text): nat { if t in Surfaces() then IndexIn(t, Surfaces()) else 99 }

  /** `String(o[k])`; empty where it throws. */
  function Coerced(j: Option<Json>): Text
  {
    var t := StringOf(if j.None? then Undefined else j.value);
    if t.None? then [] else t.value
  }

  function PlaceOf(row: Json): Place
    requires row.Obj?
  {
    var ms := row.members;
    Place(SurfaceRank(Coerced(Find(ms, SurfaceName()))), Coerced(Find(ms, FamilyName())), Coerced(Find(ms, IdName())))
  }

  /** The canonical row order: surface as declared, then family, then capability id. */
  predicate Before(a: Place, b: Place)
  {
    || a.surface < b.surface
    || (a.surface == b.surface && (Lt(a.family, b.family) || (a.family == b.family && Lt(a.id, b.id))))
  }

  predicate AllObjects(rows: seq<Json>) { forall i | 0 <= i < |rows| :: rows[i].Obj? }

  predicate PairInOrder(rows: seq<Json>, i: nat)
    requires AllObjects(rows) && 1 <= i < |rows|
  {
    Before(PlaceOf(rows[i - 1]), PlaceOf(rows[i]))
  }

  predicate InOrder(rows: seq<Json>)
    requires AllObjects(rows)
  {
    forall i | 1 <= i < |rows| :: PairInOrder(rows, i)
  }

  function OrderFindings(rows: seq<Json>): seq<Code>
  {
    if !AllObjects(rows) then [] else Flag(!InOrder(rows), RowOrder)
  }

  function CapabilitiesFindings(v: Vocabulary, ms: seq<Member>): seq<Code>
  {
    var caps := Find(ms, CapabilitiesName());
    if caps.None? || !caps.value.Arr? then [Invalid]
    else
      var rows := caps.value.items;
      Flag(Find(ms, CountName()) != Some(Num(A.Decimal(|rows|))), Invalid)
      + RowsFindings(v, rows, Find(ms, SnapshotName())).0 + OrderFindings(rows)
  }

  function Findings(v: Vocabulary, m: Json): seq<Code>
  {
    if !m.Obj? then [Invalid] else RootFindings(v, m.members) + CapabilitiesFindings(v, m.members)
  }

  predicate Unprintable(j: Option<Json>) { j.Some? && HasToString(j.value) }

  /** The messages about a row print its surface, and the values that are not of their vocabulary. */
  predicate RowThrows(row: Json)
  {
    row.Obj? &&
    var ms := row.members;
    || Unprintable(Find(ms, SurfaceName()))
    || (IsSurface(Find(ms, SurfaceName()))
        && ValuesThrow(ms))
  }

  predicate ValuesThrow(ms: seq<Member>)
  {
    || Unprintable(StatusOf(ms)) || Unprintable(ClassOf(ms))
    || (OneOf(ClassOf(ms), Classifications())
        && (Unprintable(SourceOf(ms)) || Unprintable(StabilityOf(ms)) || Unprintable(RiskOf(ms))))
  }

  predicate Placeable(row: Json)
    requires row.Obj?
  {
    && !Unprintable(Find(row.members, SurfaceName())) && !Unprintable(Find(row.members, FamilyName()))
    && !Unprintable(Find(row.members, IdName()))
  }

  /** The scan for the row order reaches a row it cannot place. */
  predicate ScanThrows(rows: seq<Json>)
  {
    AllObjects(rows) && exists k | 1 <= k < |rows| :: ReachesUnplaceable(rows, k)
  }

  predicate ReachesUnplaceable(rows: seq<Json>, k: nat)
    requires AllObjects(rows) && 1 <= k < |rows|
  {
    (!Placeable(rows[k - 1]) || !Placeable(rows[k])) && forall i | 1 <= i < k :: PairInOrder(rows, i)
  }

  predicate RowsThrow(rows: seq<Json>) { exists i | 0 <= i < |rows| :: RowThrows(rows[i]) }

  /** When the validator throws instead of returning findings. */
  predicate Throws(m: Json)
  {
    m.Obj? && match Find(m.members, CapabilitiesName())
              case Some(Arr(rows)) => Unprintable(Find(m.members, CountName())) || RowsThrow(rows) || ScanThrows(rows)
              case _ => false
  }

  /** Only form is at fault. */
  predicate Repairable(v: Vocabulary, m: Json) { !Throws(m) && Invalid !in Findings(v, m) }

  lemma OrderTest(a: Place, b: Place)
    ensures !Before(a, b)
       <==> || a.surface > b.surface
            || (a.surface == b.surface && (Lt(b.family, a.family) || (a.family == b.family && Le(b.id, a.id))))
  {
    LeTotal(a.family, b.family);
    LeTotal(a.id, b.id);
    LeReflexive(a.id);
    if Le(a.family, b.family) && Le(b.family, a.family) { LeAntisymmetric(a.family, b.family); }
    if Le(a.id, b.id) && Le(b.id, a.id) { LeAntisymmetric(a.id, b.id); }
  }

  /** None when it throws. */
  method FirstOutOfOrder(caps: seq<Json>) returns (codes: Option<seq<Code>>)
    ensures codes == if ScanThrows(caps) then None else Some(OrderFindings(caps))
  {
    hide PlaceOf, Before, Le, Placeable;
    codes := Some([]);
    if !AllObjects(caps) { return; }
    var i := 1;
    while i < |caps|
      invariant 1 <= i && codes == Some([])
      invariant forall k | 1 <= k < i && k < |caps| :: PairInOrder(caps, k) && !ReachesUnplaceable(caps, k)
    {
      if !Placeable(caps[i - 1]) || !Placeable(caps[i]) {
        assert ReachesUnplaceable(caps, i);
        return None;
      }
      var a, c := PlaceOf(caps[i - 1]), PlaceOf(caps[i]);
      OrderTest(a, c);
      if a.surface > c.surface
        || (a.surface == c.surface && (Lt(c.family, a.family) || (a.family == c.family && Le(c.id, a.id))))
      {
        assert !PairInOrder(caps, i);
        forall k | 1 <= k < |caps| ensures !ReachesUnplaceable(caps, k) { assert k > i ==> !PairInOrder(caps, i); }
        return Some([RowOrder]);
      }
      i := i + 1;
    }
  }

  lemma VocabularyPrints(j: Option<Json>, vocabulary: seq<Text>)
    ensures OneOf(j, vocabulary) ==> !Unprintable(j)
    ensures NullOrOneOf(j, vocabulary) ==> !Unprintable(j)
  {
  }

  /** A value that is not of its vocabulary is printed. */
  method CheckOne(j: Option<Json>, valid: bool) returns (codes: Option<seq<Code>>)
    requires valid ==> !Unprintable(j)
    ensures codes == if Unprintable(j) then None else Some(Flag(!valid, Invalid))
  {
    if valid { return Some([]); }
    if Unprintable(j) { return None; }
    return Some([Invalid]);
  }

  /** The checks of a row after its classification. */
  method ValidateRest(v: Vocabulary, ms: seq<Member>, snapshot: Option<Json>) returns (codes: Option<seq<Code>>)
    ensures codes == if Unprintable(SourceOf(ms)) || Unprintable(StabilityOf(ms)) || Unprintable(RiskOf(ms)) then None
                     else Some(RestFindings(v, ms, snapshot))
  {
    hide Unprintable, OneOf, NullOrOneOf, SourceOf, StabilityOf, RiskOf, FieldsOf;
    VocabularyPrints(SourceOf(ms), SourceTypes());
    VocabularyPrints(StabilityOf(ms), Stabilities());
    VocabularyPrints(RiskOf(ms), RiskClasses());
    var source := CheckOne(SourceOf(ms), OneOf(SourceOf(ms), SourceTypes()));
    if source.None? { return None; }
    var stability := CheckOne(StabilityOf(ms), NullOrOneOf(StabilityOf(ms), Stabilities()));
    if stability.None? { return None; }
    var risk := CheckOne(RiskOf(ms), NullOrOneOf(RiskOf(ms), RiskClasses()));
    if risk.None? { return None; }
    return Some(source.value + stability.value + risk.value + Flag(!v.restOk(FieldsOf(ms), snapshot), Invalid));
  }

  /** The checks of a row whose surface is valid. */
  method ValidateFields(v: Vocabulary, ms: seq<Member>, isNew: bool, snapshot: Option<Json>)
    returns (codes: Option<seq<Code>>)
    ensures codes == if ValuesThrow(ms) then None else Some(FieldFindings(v, ms, isNew, snapshot))
  {
    hide Unprintable, OneOf, StatusOf, ClassOf, SourceOf, StabilityOf, RiskOf, FieldsOf, RestFindings, IsFilled;
    VocabularyPrints(StatusOf(ms), Statuses());
    VocabularyPrints(ClassOf(ms), Classifications());
    var findings := Flag(!v.headOk(FieldsOf(ms)), Invalid) + Flag(!isNew, Invalid);
    findings := findings + Flag(!IsFilled(Find(ms, FamilyName())), Invalid);
    var status := CheckOne(StatusOf(ms), OneOf(StatusOf(ms), Statuses()));
    if status.None? { return None; }
    var class_ := CheckOne(ClassOf(ms), OneOf(ClassOf(ms), Classifications()));
    if class_.None? { return None; }
    findings := findings + status.value;
    if !OneOf(ClassOf(ms), Classifications()) { return Some(findings + [Invalid]); }
    var rest := ValidateRest(v, ms, snapshot);
    if rest.None? { return None; }
    return Some(findings + rest.value);
  }

  /** The checks of one row, in order; None when one of their messages throws. */
  method ValidateRow(v: Vocabulary, raw: Json, snapshot: Option<Json>, seen: set<Text>)
    returns (r: Option<(seq<Code>, set<Text>)>)
    ensures r == if RowThrows(raw) then None else Some(RowFindings(v, raw, snapshot, seen))
  {
    hide Unprintable, OneOf, Find, KeyFindings, FieldFindings, ValuesThrow, RowKey;
    if raw.Arr? { return Some(([Invalid, Invalid], seen)); }
    if !raw.Obj? { return Some(([Invalid], seen)); }
    var ms := raw.members;
    var findings := KeyFindings(ms);
    var surface, id := Find(ms, SurfaceName()), Find(ms, IdName());
    VocabularyPrints(surface, Surfaces());
    if findings != [] && IsText(id) && Unprintable(surface) { return None; }
    if !IsSurface(surface) {
      if Unprintable(surface) { return None; }
      return Some((findings + [Invalid], seen));
    }
    SurfaceIsText(surface);
    var now, isNew := seen, false;
    if IsId(v, id) {
      var key := RowKey(surface.value.s, id.value.s);
      isNew := key !in seen;
      now := seen + {key};
    }
    var fields := ValidateFields(v, ms, isNew, snapshot);
    if fields.None? { return None; }
    return Some((findings + fields.value, now));
  }

  lemma SurfaceIsText(j: Option<Json>)
    requires IsSurface(j)
    ensures IsText(j)
  {
  }

  /** validateParityManifestFindings; None when it throws. */
  method ValidateFindings(v: Vocabulary, m: Json) returns (r: Option<seq<Code>>)
    ensures r == if Throws(m) then None else Some(Findings(v, m))
  {
    hide RowFindings, OrderFindings, RootFindings, Find, RowThrows, ScanThrows, Unprintable;
    if !m.Obj? { return Some([Invalid]); }
    var ms := m.members;
    var findings := RootFindings(v, ms);
    var caps := Find(ms, CapabilitiesName());
    if caps.None? || !caps.value.Arr? { return Some(findings + [Invalid]); }
    var rows, snapshot := caps.value.items, Find(ms, SnapshotName());
    if Find(ms, CountName()) != Some(Num(A.Decimal(|rows|))) {
      if Unprintable(Find(ms, CountName())) { return None; }
      findings := findings + [Invalid];
    }
    CountPrints(Find(ms, CountName()), |rows|);
    ghost var before := findings;
    var seen := {};
    for i := 0 to |rows|
      invariant findings == before + RowsFindings(v, rows[..i], snapshot).0
      invariant seen == RowsFindings(v, rows[..i], snapshot).1
      invariant forall k | 0 <= k < i :: !RowThrows(rows[k])
    {
      assert rows[..i + 1][..i] == rows[..i];
      var now := ValidateRow(v, rows[i], snapshot, seen);
      if now.None? { return None; }
      findings, seen := findings + now.value.0, now.value.1;
    }
    assert rows[..|rows|] == rows;
    var order := FirstOutOfOrder(rows);
    if order.None? { return None; }
    findings := findings + order.value;
    ghost var c := Flag(Find(ms, CountName()) != Some(Num(A.Decimal(|rows|))), Invalid);
    assert findings == RootFindings(v, ms) + (c + RowsFindings(v, rows, snapshot).0 + OrderFindings(rows));
    return Some(findings);
  }

  lemma CountPrints(j: Option<Json>, n: nat)
    ensures j == Some(Num(A.Decimal(n))) ==> !Unprintable(j)
  {
  }

  /** The validator throws, though it is to return findings on every input, exactly as `Throws` says; a
      row whose surface is an object with a property named toString is enough. */
  lemma ToStringThrows(v: Vocabulary, rest: seq<Member>, fields: seq<Member>, x: Json)
    requires Find(rest, CapabilitiesName()).None? && Find(fields, SurfaceName()).None?
    ensures var row := Obj(fields + [Member(SurfaceName(), Obj([Member(A.Key("toString"), x)]))]);
            Throws(Obj(rest + [Member(CapabilitiesName(), Arr([row]))]))
  {
    hide A.Key;
    var surface := Obj([Member(A.Key("toString"), x)]);
    var row := Obj(fields + [Member(SurfaceName(), surface)]);
    FindAppend(fields, [Member(SurfaceName(), surface)], SurfaceName());
    FindAppend(rest, [Member(CapabilitiesName(), Arr([row]))], CapabilitiesName());
    assert KeysOf(surface.members)[0] == A.Key("toString");
    assert [row][0] == row && RowThrows(row);
  }

  // ---------------------------------------------------------------------------------------
  // The renderer
  // ---------------------------------------------------------------------------------------

  /** What the type of a manifest row promises the renderer. */
  predicate TypedRow(row: Json)
  {
    && row.Obj? && IsText(Find(row.members, SurfaceName()))
    && IsText(Find(row.members, FamilyName())) && IsText(Find(row.members, IdName()))
  }

  predicate Typed(rows: seq<Json>) { forall i | 0 <= i < |rows| :: TypedRow(rows[i]) }

  predicate TypedManifest(m: Json)
  {
    m.Obj? && match Find(m.members, CapabilitiesName()) case Some(Arr(rows)) => Typed(rows) case _ => false
  }

  function RowPlace(row: Json): Place
    requires TypedRow(row)
  {
    var ms := row.members;
    Place(SurfaceRank(Find(ms, SurfaceName()).value.s), Find(ms, FamilyName()).value.s, Find(ms, IdName()).value.s)
  }

  function InsertRow(row: Json, rows: seq<Json>): (r: seq<Json>)
    requires TypedRow(row) && Typed(rows)
    ensures Typed(r) && multiset(r) == multiset{row} + multiset(rows)
  {
    if |rows| == 0 then [row]
    else if Before(RowPlace(row), RowPlace(rows[0])) then [row] + rows
    else
      assert rows == [rows[0]] + rows[1..];
      [rows[0]] + InsertRow(row, rows[1..])
  }

  /** `sort` under the renderer's comparator. */
  function SortRows(rows: seq<Json>): (r: seq<Json>)
    requires Typed(rows)
    ensures Typed(r) && multiset(r) == multiset(rows)
  {
    if |rows| == 0 then []
    else
      assert rows == [rows[0]] + rows[1..];
      InsertRow(rows[0], SortRows(rows[1..]))
  }

  function CanonicalRow(row: Json): (r: Json)
    requires row.Obj?
  {
    Obj(Rebuild(RowFields(), row.members))
  }

  function CanonicalRows(rows: seq<Json>): (r: seq<Json>)
    requires AllObjects(rows)
    ensures |r| == |rows| && forall i | 0 <= i < |rows| :: r[i] == CanonicalRow(rows[i])
  {
    if |rows| == 0 then [] else [CanonicalRow(rows[0])] + CanonicalRows(rows[1..])
  }

  function RowsOf(m: Json): (rows: seq<Json>)
    requires TypedManifest(m)
    ensures Typed(rows)
  {
    Find(m.members, CapabilitiesName()).value.items
  }

  /** The value renderParityManifest prints. */
  function Format(m: Json): (r: Json)
    requires TypedManifest(m)
  {
    var rows := CanonicalRows(SortRows(RowsOf(m)));
    Obj(Rebuild(ScalarFields(), m.members)
        + [Member(CountName(), Num(A.Decimal(|rows|))), Member(CapabilitiesName(), Arr(rows))])
  }

  /** renderParityManifest. */
  method RenderParityManifest(m: Json) returns (root: Json)
    requires TypedManifest(m)
    ensures root == Format(m)
  {
    hide SortRows, Rebuild, Find, RowFields, ScalarFields, A.Decimal;
    var rows := SortRows(RowsOf(m));
    var canonicalRows: seq<Json> := [];
    for i := 0 to |rows|
      invariant |canonicalRows| == i && forall k | 0 <= k < i :: canonicalRows[k] == CanonicalRow(rows[k])
    {
      var out := [];
      var fields := RowFields();
      for j := 0 to |fields|
        invariant out + Rebuild(fields[j..], rows[i].members) == Rebuild(fields, rows[i].members)
      {
        RebuildStep(fields[j..], rows[i].members);
        assert fields[j..][1..] == fields[j + 1..];
        out := out + [Member(fields[j], Value(rows[i].members, fields[j]))];
      }
      assert fields[|fields|..] == [];
      canonicalRows := canonicalRows + [Obj(out)];
    }
    assert canonicalRows == CanonicalRows(rows);
    root := Obj(Rebuild(ScalarFields(), m.members)
                + [Member(CountName(), Num(A.Decimal(|canonicalRows|))),
                   Member(CapabilitiesName(), Arr(canonicalRows))]);
  }

  lemma RebuildStep(fs: seq<Text>, ms: seq<Member>)
    requires |fs| > 0
    ensures Rebuild(fs, ms) == [Member(fs[0], Value(ms, fs[0]))] + Rebuild(fs[1..], ms)
  {
  }

  // ---------------------------------------------------------------------------------------
  // Rebuilding keeps the fields
  // ---------------------------------------------------------------------------------------

  lemma {:induction false} FindRebuild(fs: seq<Text>, ms: seq<Member>, k: Text)
    ensures Find(Rebuild(fs, ms), k) == if k in fs then Some(Value(ms, k)) else None
  {
    if |fs| > 0 {
      FindRebuild(fs[1..], ms, k);
      assert k in fs <==> k == fs[0] || k in fs[1..];
      assert Rebuild(fs, ms)[1..] == Rebuild(fs[1..], ms);
    }
  }

  lemma {:induction false} RebuildKeys(fs: seq<Text>, ms: seq<Member>)
    ensures KeysOf(Rebuild(fs, ms)) == fs
  {
    if |fs| > 0 {
      RebuildKeys(fs[1..], ms);
      var r := Rebuild(fs, ms);
      assert r[1..] == Rebuild(fs[1..], ms);
      forall i | 0 <= i < |fs| ensures KeysOf(r)[i] == fs[i] {
        if i > 0 { assert KeysOf(r[1..])[i - 1] == fs[1..][i - 1]; }
      }
    }
  }

  lemma {:induction false} FindKey(ms: seq<Member>, k: Text)
    ensures Find(ms, k).Some? <==> k in KeysOf(ms)
  {
    if |ms| > 0 {
      FindKey(ms[1..], k);
      if k in KeysOf(ms) {
        var i :| 0 <= i < |ms| && ms[i].key == k;
        if i > 0 { assert KeysOf(ms[1..])[i - 1] == k; }
      }
      if k in KeysOf(ms[1..]) {
        var i :| 0 <= i < |ms| - 1 && ms[1..][i].key == k;
        assert KeysOf(ms)[i + 1] == k;
      }
      assert KeysOf(ms)[0] == ms[0].key;
    }
  }

  lemma {:induction false} FindAppend(a: seq<Member>, b: seq<Member>, k: Text)
    ensures Find(a + b, k) == if Find(a, k).Some? then Find(a, k) else Find(b, k)
  {
    if |a| == 0 {
      assert a + b == b;
    } else {
      FindAppend(a[1..], b, k);
      assert (a + b)[1..] == a[1..] + b;
    }
  }

  lemma {:induction false} FindAt(ms: seq<Member>, i: nat)
    requires i < |ms| && DistinctKeys(ms)
    ensures Find(ms, ms[i].key) == Some(ms[i].value)
  {
    if i > 0 {
      var t := ms[1..];
      forall a, b | 0 <= a < b < |t| ensures t[a].key != t[b].key { assert t[a] == ms[a + 1] && t[b] == ms[b + 1]; }
      FindAt(t, i - 1);
    }
  }

  /** A row with exactly the schema's fields keeps each field's value when rebuilt. */
  lemma CanonicalKeeps(row: Json)
    requires row.Obj? && ExactKeys(row.members)
    ensures forall k :: Find(CanonicalRow(row).members, k) == Find(row.members, k)
    ensures FieldsOf(CanonicalRow(row).members) == FieldsOf(row.members)
    ensures KeysOf(CanonicalRow(row).members) == RowFields() && ExactKeys(CanonicalRow(row).members)
  {
    hide RowFields;
    var ms, r := row.members, CanonicalRow(row).members;
    RebuildKeys(RowFields(), ms);
    forall k ensures Find(r, k) == Find(ms, k) {
      FindRebuild(RowFields(), ms, k);
      FindKey(ms, k);
    }
    assert forall k :: k in KeysOf(r) <==> k in KeysOf(ms);
  }

  lemma CanonicalAgain(row: Json)
    requires row.Obj? && ExactKeys(row.members)
    ensures CanonicalRow(CanonicalRow(row)) == CanonicalRow(row)
  {
    hide RowFields, Find;
    CanonicalKeeps(row);
    RebuildSame(RowFields(), row.members, CanonicalRow(row).members);
  }

  lemma {:induction false} RebuildSame(fs: seq<Text>, ms: seq<Member>, ns: seq<Member>)
    requires forall k :: Find(ms, k) == Find(ns, k)
    ensures Rebuild(fs, ms) == Rebuild(fs, ns)
  {
    hide Find;
    if |fs| > 0 { RebuildSame(fs[1..], ms, ns); }
  }

  /** A row already in the schema's order is its own canonical form. */
  lemma CanonicalFixed(row: Json)
    requires row.Obj? && DistinctKeys(row.members) && KeysOf(row.members) == RowFields()
    ensures CanonicalRow(row) == row
  {
    hide RowFields, Find;
    var ms, fs := row.members, RowFields();
    assert |ms| == |KeysOf(ms)|;
    RebuildKeys(fs, ms);
    var r := Rebuild(fs, ms);
    forall i | 0 <= i < |ms| ensures r[i] == ms[i] {
      FindAt(ms, i);
      assert KeysOf(ms)[i] == fs[i] && KeysOf(r)[i] == fs[i];
      RebuildAt(fs, ms, i);
    }
  }

  lemma {:induction false} RebuildAt(fs: seq<Text>, ms: seq<Member>, i: nat)
    requires i < |fs|
    ensures Rebuild(fs, ms)[i] == Member(fs[i], Value(ms, fs[i]))
  {
    hide Find;
    if i > 0 { RebuildAt(fs[1..], ms, i - 1); }
  }

  // ---------------------------------------------------------------------------------------
  // Manifests whose form alone may be at fault
  // ---------------------------------------------------------------------------------------

  predicate SoundRow(v: Vocabulary, row: Json, snapshot: Option<Json>)
  {
    && row.Obj? && ExactKeys(row.members) && IsSurface(Find(row.members, SurfaceName()))
    && IsId(v, Find(row.members, IdName())) && IsFilled(Find(row.members, FamilyName()))
    && SoundVocabulary(row.members) && v.headOk(FieldsOf(row.members)) && v.restOk(FieldsOf(row.members), snapshot)
  }

  predicate SoundVocabulary(ms: seq<Member>)
  {
    && OneOf(StatusOf(ms), Statuses()) && OneOf(ClassOf(ms), Classifications()) && OneOf(SourceOf(ms), SourceTypes())
    && NullOrOneOf(StabilityOf(ms), Stabilities()) && NullOrOneOf(RiskOf(ms), RiskClasses())
  }

  function IdOf(row: Json): Text
    requires TypedRow(row)
  {
    RowKey(Find(row.members, SurfaceName()).value.s, Find(row.members, IdName()).value.s)
  }

  predicate DistinctIds(rows: seq<Json>)
    requires Typed(rows)
  {
    forall i, j | 0 <= i < j < |rows| :: IdOf(rows[i]) != IdOf(rows[j])
  }

  predicate EachSound(v: Vocabulary, rows: seq<Json>, snapshot: Option<Json>)
  {
    forall i | 0 <= i < |rows| :: SoundRow(v, rows[i], snapshot)
  }

  predicate SoundRows(v: Vocabulary, rows: seq<Json>, snapshot: Option<Json>)
  {
    EachSound(v, rows, snapshot) && Typed(rows) && DistinctIds(rows)
  }

  function IdSet(rows: seq<Json>): set<Text>
    requires Typed(rows)
  {
    set i | 0 <= i < |rows| :: IdOf(rows[i])
  }

  /** One finding for each row whose keys are out of order. */
  function KeyOrders(rows: seq<Json>): seq<Code>
    requires AllObjects(rows)
  {
    if |rows| == 0 then []
    else KeyOrders(rows[..|rows| - 1]) + Flag(KeysOf(rows[|rows| - 1].members) != RowFields(), KeyOrder)
  }

  lemma SoundTyped(v: Vocabulary, rows: seq<Json>, snapshot: Option<Json>)
    requires EachSound(v, rows, snapshot)
    ensures Typed(rows) && AllObjects(rows)
  {
    hide ExactKeys, Find, FieldsOf, Surfaces;
    forall i | 0 <= i < |rows| ensures TypedRow(rows[i]) { assert SoundRow(v, rows[i], snapshot); }
  }

  /** A row yields no hard finding exactly when it is sound and its id is new. */
  lemma RowSound(v: Vocabulary, row: Json, snapshot: Option<Json>, seen: set<Text>)
    ensures Invalid !in RowFindings(v, row, snapshot, seen).0
       <==> SoundRow(v, row, snapshot) && TypedRow(row) && IdOf(row) !in seen
    ensures SoundRow(v, row, snapshot) && TypedRow(row) && IdOf(row) !in seen ==>
              RowFindings(v, row, snapshot, seen)
              == (Flag(KeysOf(row.members) != RowFields(), KeyOrder), seen + {IdOf(row)})
  {
    hide ExactKeys, Find, FieldsOf, Surfaces, RowFields, RowKey, FieldFindings, SoundVocabulary;
    if row.Obj? {
      FieldsSound(v, row.members, true, snapshot);
      FieldsSound(v, row.members, false, snapshot);
      assert KeyFindings(row.members) + [] == KeyFindings(row.members);
    }
  }

  lemma FieldsSound(v: Vocabulary, ms: seq<Member>, isNew: bool, snapshot: Option<Json>)
    ensures Invalid !in FieldFindings(v, ms, isNew, snapshot)
       <==> isNew && v.headOk(FieldsOf(ms)) && IsFilled(Find(ms, FamilyName())) && SoundVocabulary(ms)
            && v.restOk(FieldsOf(ms), snapshot)
    ensures FieldFindings(v, ms, isNew, snapshot) == [] || Invalid in FieldFindings(v, ms, isNew, snapshot)
  {
    hide OneOf, NullOrOneOf, Find, FieldsOf, IsFilled;
  }

  lemma {:induction false} RowsSound(v: Vocabulary, rows: seq<Json>, snapshot: Option<Json>)
    ensures Invalid !in RowsFindings(v, rows, snapshot).0 <==> SoundRows(v, rows, snapshot)
    ensures SoundRows(v, rows, snapshot) ==>
              AllObjects(rows) && RowsFindings(v, rows, snapshot) == (KeyOrders(rows), IdSet(rows))
  {
    hide RowFindings, SoundRow, TypedRow, RowFields;
    if |rows| > 0 {
      var n := |rows| - 1;
      var prefix, row := rows[..n], rows[n];
      RowsSound(v, prefix, snapshot);
      RowSound(v, row, snapshot, RowsFindings(v, prefix, snapshot).1);
      assert prefix + [row] == rows;
      SoundSnoc(v, prefix, row, snapshot);
      var (before, seen) := RowsFindings(v, prefix, snapshot);
      var (now, seen') := RowFindings(v, row, snapshot, seen);
      assert RowsFindings(v, rows, snapshot) == (before + now, seen');
      assert Invalid in before + now <==> Invalid in before || Invalid in now;
    } else {
      assert Typed(rows) && IdSet(rows) == {};
    }
  }

  lemma SoundSnoc(v: Vocabulary, prefix: seq<Json>, row: Json, snapshot: Option<Json>)
    ensures SoundRows(v, prefix + [row], snapshot)
       <==> SoundRows(v, prefix, snapshot) && SoundRow(v, row, snapshot) && TypedRow(row) && IdOf(row) !in IdSet(prefix)
    ensures SoundRows(v, prefix + [row], snapshot) ==>
              AllObjects(prefix + [row]) && IdSet(prefix + [row]) == IdSet(prefix) + {IdOf(row)}
  {
    hide SoundRow, IdOf;
    var rows := prefix + [row];
    forall i | 0 <= i < |prefix| ensures rows[i] == prefix[i] {}
    assert rows[|prefix|] == row;
    if SoundRows(v, rows, snapshot) {
      SoundTyped(v, rows, snapshot);
      assert Typed(prefix);
      assert DistinctIds(prefix);
      assert IdSet(rows) == IdSet(prefix) + {IdOf(row)};
    }
  }

  // ---------------------------------------------------------------------------------------
  // Sorting rows
  // ---------------------------------------------------------------------------------------

  predicate SortedRows(rows: seq<Json>)
    requires Typed(rows)
  {
    forall i, j | 0 <= i < j < |rows| :: Before(RowPlace(rows[i]), RowPlace(rows[j]))
  }

  lemma BeforeTransitive(a: Place, b: Place, c: Place)
    requires Before(a, b) && Before(b, c)
    ensures Before(a, c)
  {
    hide Le;
    if a.surface == b.surface == c.surface {
      if Lt(a.family, b.family) && Lt(b.family, c.family) { LtTransitive(a.family, b.family, c.family); }
      if Lt(a.id, b.id) && Lt(b.id, c.id) { LtTransitive(a.id, b.id, c.id); }
    }
  }

  lemma BeforeTotal(a: Place, b: Place)
    ensures a == b || Before(a, b) || Before(b, a)
  {
    hide Le;
    LeTotal(a.family, b.family);
    LeTotal(a.id, b.id);
  }

  predicate FreshRow(row: Json, rows: seq<Json>)
    requires TypedRow(row) && Typed(rows)
  {
    forall i | 0 <= i < |rows| :: IdOf(rows[i]) != IdOf(row) && RowPlace(rows[i]) != RowPlace(row)
  }

  predicate Neat(rows: seq<Json>)
    requires Typed(rows)
  {
    SortedRows(rows) && DistinctIds(rows)
  }

  lemma {:induction false} InsertKeeps(row: Json, rows: seq<Json>)
    requires TypedRow(row) && Typed(rows) && Neat(rows) && FreshRow(row, rows)
    ensures Neat(InsertRow(row, rows))
  {
    hide Before, RowPlace, IdOf, TypedRow;
    if |rows| > 0 {
      BeforeTotal(RowPlace(row), RowPlace(rows[0]));
      if Before(RowPlace(row), RowPlace(rows[0])) {
        NeatCons(row, rows);
      } else {
        var t := rows[1..];
        NeatTail(rows);
        assert FreshRow(row, t);
        InsertKeeps(row, t);
        var r := InsertRow(row, t);
        InsertedFrom(row, t);
        HeadBefore(rows, row, r);
        NeatCons(rows[0], r);
      }
    }
  }

  lemma InsertedFrom(row: Json, rows: seq<Json>)
    requires TypedRow(row) && Typed(rows)
    ensures forall x | x in InsertRow(row, rows) :: x == row || x in rows
  {
    hide InsertRow, TypedRow;
    forall x | x in InsertRow(row, rows) ensures x == row || x in rows {
      assert x in multiset(InsertRow(row, rows));
    }
  }

  lemma NeatTail(rows: seq<Json>)
    requires |rows| > 0 && Typed(rows) && Neat(rows)
    ensures Typed(rows[1..]) && Neat(rows[1..])
  {
    hide Before, RowPlace, IdOf, TypedRow;
  }

  lemma HeadBefore(rows: seq<Json>, row: Json, r: seq<Json>)
    requires |rows| > 0 && Typed(rows) && Neat(rows) && Typed(r) && TypedRow(row) && FreshRow(row, rows)
    requires Before(RowPlace(rows[0]), RowPlace(row)) && forall i | 0 <= i < |r| :: r[i] == row || r[i] in rows[1..]
    ensures forall i | 0 <= i < |r| :: Before(RowPlace(rows[0]), RowPlace(r[i])) && IdOf(rows[0]) != IdOf(r[i])
  {
    hide Before, RowPlace, IdOf, TypedRow;
    forall i | 0 <= i < |r| ensures Before(RowPlace(rows[0]), RowPlace(r[i])) && IdOf(rows[0]) != IdOf(r[i]) {
      if r[i] != row {
        var k :| 0 <= k < |rows[1..]| && rows[1..][k] == r[i];
        assert rows[k + 1] == r[i];
      }
    }
  }

  lemma NeatCons(row: Json, rows: seq<Json>)
    requires TypedRow(row) && Typed(rows) && Neat(rows)
    requires |rows| > 0 ==> Before(RowPlace(row), RowPlace(rows[0]))
    requires forall i | 0 <= i < |rows| :: IdOf(row) != IdOf(rows[i])
    ensures Typed([row] + rows) && Neat([row] + rows)
  {
    hide Before, RowPlace, IdOf, TypedRow;
    var r := [row] + rows;
    forall i, j | 0 <= i < j < |r| ensures Before(RowPlace(r[i]), RowPlace(r[j])) {
      if i > 0 {
        assert r[i] == rows[i - 1] && r[j] == rows[j - 1];
      } else if j > 1 {
        BeforeTransitive(RowPlace(row), RowPlace(rows[0]), RowPlace(rows[j - 1]));
      }
    }
    forall i, j | 0 <= i < j < |r| ensures IdOf(r[i]) != IdOf(r[j]) {
      if i > 0 { assert r[i] == rows[i - 1] && r[j] == rows[j - 1]; }
    }
  }

  /** The surface of every row is one of the declared ones. */
  predicate KnownSurfaces(rows: seq<Json>)
  {
    forall i | 0 <= i < |rows| :: TypedRow(rows[i]) && IsSurface(Find(rows[i].members, SurfaceName()))
  }

  lemma SamePlaceSameId(a: Json, b: Json)
    requires TypedRow(a) && TypedRow(b) && RowPlace(a) == RowPlace(b)
    requires IsSurface(Find(a.members, SurfaceName())) && IsSurface(Find(b.members, SurfaceName()))
    ensures IdOf(a) == IdOf(b)
  {
    hide Find, Surfaces;
    var s, t := Find(a.members, SurfaceName()).value.s, Find(b.members, SurfaceName()).value.s;
    assert Surfaces()[IndexIn(s, Surfaces())] == s && Surfaces()[IndexIn(t, Surfaces())] == t;
  }

  lemma {:induction false} SortKeeps(rows: seq<Json>)
    requires Typed(rows) && KnownSurfaces(rows) && DistinctIds(rows)
    ensures Neat(SortRows(rows))
  {
    hide Before, RowPlace, IdOf, TypedRow, IsSurface;
    if |rows| > 0 {
      var t := rows[1..];
      assert rows == [rows[0]] + t;
      SortKeeps(t);
      var r := SortRows(t);
      forall i | 0 <= i < |r| ensures IdOf(r[i]) != IdOf(rows[0]) && RowPlace(r[i]) != RowPlace(rows[0]) {
        assert r[i] in multiset(t);
        var k :| 0 <= k < |t| && t[k] == r[i];
        assert rows[k + 1] == r[i];
        if RowPlace(r[i]) == RowPlace(rows[0]) { SamePlaceSameId(r[i], rows[0]); }
      }
      InsertKeeps(rows[0], r);
    }
  }

  lemma {:induction false} SortedFixed(rows: seq<Json>)
    requires Typed(rows) && SortedRows(rows)
    ensures SortRows(rows) == rows
  {
    hide Before, RowPlace, TypedRow;
    if |rows| > 0 {
      SortedFixed(rows[1..]);
      if |rows| > 1 { assert Before(RowPlace(rows[0]), RowPlace(rows[1])); }
    }
  }

  /** Adjacent order is order. */
  lemma InOrderSorted(rows: seq<Json>)
    requires Typed(rows)
    ensures AllObjects(rows) && (InOrder(rows) <==> SortedRows(rows))
  {
    hide Before, RowPlace, PlaceOf;
    forall i | 0 <= i < |rows| ensures rows[i].Obj? && PlaceOf(rows[i]) == RowPlace(rows[i]) { SamePlace(rows[i]); }
    if InOrder(rows) {
      forall i, j | 0 <= i < j < |rows| ensures Before(RowPlace(rows[i]), RowPlace(rows[j])) { Chain(rows, i, j); }
    }
  }

  lemma SamePlace(row: Json)
    requires TypedRow(row)
    ensures row.Obj? && PlaceOf(row) == RowPlace(row)
  {
    hide Find, SurfaceRank;
  }

  lemma {:induction false} Chain(rows: seq<Json>, i: nat, j: nat)
    requires Typed(rows) && AllObjects(rows) && InOrder(rows) && i < j < |rows|
    ensures Before(RowPlace(rows[i]), RowPlace(rows[j]))
    decreases j
  {
    hide Before, RowPlace, PlaceOf, TypedRow;
    SamePlace(rows[j - 1]);
    SamePlace(rows[j]);
    assert PairInOrder(rows, j);
    if i < j - 1 {
      Chain(rows, i, j - 1);
      BeforeTransitive(RowPlace(rows[i]), RowPlace(rows[j - 1]), RowPlace(rows[j]));
    }
  }

  // ---------------------------------------------------------------------------------------
  // Formatting repairs exactly the form
  // ---------------------------------------------------------------------------------------

  predicate SoundRoot(v: Vocabulary, ms: seq<Member>)
  {
    && KnownRoot(ms)
    && Find(ms, A.Key("schema_version")) == Some(Num([49]))
    && Find(ms, A.Key("name")) == Some(Str(A.Key("native-experience-parity-v1")))
    && IsSnapshot(v, Find(ms, SnapshotName())) && IsAnchorText(Find(ms, A.Key("source_anchor")))
    && IsFilled(Find(ms, A.Key("description"))) && IsFilled(Find(ms, A.Key("verify")))
    && IsFilled(Find(ms, A.Key("doc")))
  }

  predicate SoundManifest(v: Vocabulary, m: Json)
  {
    && TypedManifest(m) && SoundRoot(v, m.members)
    && Find(m.members, CountName()) == Some(Num(A.Decimal(|RowsOf(m)|)))
    && SoundRows(v, RowsOf(m), Find(m.members, SnapshotName()))
  }

  /** A text under one of the names. */
  ghost predicate Names(j: Option<Json>, names: set<string>) { exists n :: n in names && j == Some(Str(A.Key(n))) }

  ghost predicate HoldsText(j: Option<Json>) { exists t: Text :: t != [] && j == Some(Str(t)) }

  lemma OneOfNames(j: Option<Json>, vocabulary: seq<Text>, names: set<string>)
    requires forall t | t in vocabulary :: exists n :: n in names && t == A.Key(n)
    requires forall n | n in names :: A.Key(n) in vocabulary
    ensures OneOf(j, vocabulary) <==> Names(j, names)
    ensures NullOrOneOf(j, vocabulary) <==> j == Some(Null) || Names(j, names)
  {
    hide A.Key;
  }

  const SURFACES := {"OPENAI_API", "ANTHROPIC_API", "CODEX", "CLAUDE_CODE", "CHATGPT_APP", "CLAUDE_APP", "CODEX_APP",
                     "CLAUDE_CODE_APP"}

  const CLASSIFICATIONS := {"FULL", "PARTIAL", "MISSING", "PRODUCT_ONLY", "PROVIDER_NOT_EXPOSED", "BLOCKED_BY_GOVAI",
                            "NOT_APPLICABLE"}

  const STATUSES := {"GA", "BETA", "EXPERIMENTAL", "DEPRECATED", "PRODUCT_ONLY", "UNKNOWN"}

  /** What a sound row says: one of the surfaces, a family, an id, and the closed vocabularies, two of which
      admit null. */
  lemma SoundRowSays(v: Vocabulary, row: Json, snapshot: Option<Json>)
    requires SoundRow(v, row, snapshot)
    ensures var ms := row.members;
            && Names(Find(ms, A.Key("surface")), SURFACES) && HoldsText(Find(ms, A.Key("family")))
            && (exists id :: Find(ms, A.Key("capability_id")) == Some(Str(id)) && v.kebab(id))
            && SpeaksInTerms(ms)
  {
    var ms := row.members;
    SurfaceNames(Find(ms, A.Key("surface")));
    VocabularySays(ms);
    hide A.Key, Find, FieldsOf, RowFields, ExactKeys, SoundVocabulary, SpeaksInTerms, Names, IsSurface;
  }

  lemma SurfaceNames(j: Option<Json>)
    ensures IsSurface(j) <==> Names(j, SURFACES)
  {
    hide A.Key;
    OneOfNames(j, Surfaces(), SURFACES);
  }

  ghost predicate SpeaksInTerms(ms: seq<Member>)
  {
    && Names(Find(ms, A.Key("classification")), CLASSIFICATIONS)
    && Names(Find(ms, A.Key("official_status")), STATUSES)
    && Names(Find(ms, A.Key("source_type")), {"api-reference", "guide", "changelog", "product-page"})
    && (Find(ms, A.Key("protocol_stability")) == Some(Null)
        || Names(Find(ms, A.Key("protocol_stability")), {"stable", "experimental", "unstable"}))
    && (Find(ms, A.Key("risk_class_if_known")) == Some(Null)
        || Names(Find(ms, A.Key("risk_class_if_known")), {"A", "B", "C", "D", "E"}))
  }

  lemma VocabularySays(ms: seq<Member>)
    ensures SoundVocabulary(ms) <==> SpeaksInTerms(ms)
  {
    hide A.Key, Find, OneOf, NullOrOneOf, Names, Classifications, Statuses, SourceTypes, Stabilities, RiskClasses;
    ClassNames(ClassOf(ms));
    StatusNames(StatusOf(ms));
    SourceNames(SourceOf(ms));
    StabilityNames(StabilityOf(ms));
    RiskNames(RiskOf(ms));
  }

  lemma SourceNames(j: Option<Json>)
    ensures OneOf(j, SourceTypes()) <==> Names(j, {"api-reference", "guide", "changelog", "product-page"})
  {
    hide A.Key;
    OneOfNames(j, SourceTypes(), {"api-reference", "guide", "changelog", "product-page"});
  }

  lemma StabilityNames(j: Option<Json>)
    ensures NullOrOneOf(j, Stabilities()) <==> j == Some(Null) || Names(j, {"stable", "experimental", "unstable"})
  {
    hide A.Key;
    OneOfNames(j, Stabilities(), {"stable", "experimental", "unstable"});
  }

  lemma RiskNames(j: Option<Json>)
    ensures NullOrOneOf(j, RiskClasses()) <==> j == Some(Null) || Names(j, {"A", "B", "C", "D", "E"})
  {
    hide A.Key;
    OneOfNames(j, RiskClasses(), {"A", "B", "C", "D", "E"});
  }

  lemma ClassNames(j: Option<Json>)
    ensures OneOf(j, Classifications()) <==> Names(j, CLASSIFICATIONS)
  {
    hide A.Key;
    OneOfNames(j, Classifications(), CLASSIFICATIONS);
  }

  lemma StatusNames(j: Option<Json>)
    ensures OneOf(j, Statuses()) <==> Names(j, STATUSES)
  {
    hide A.Key;
    OneOfNames(j, Statuses(), STATUSES);
  }

  /** What a sound root says: the version, the name, a snapshot date, a commit id and three texts. */
  lemma SoundRootSays(v: Vocabulary, ms: seq<Member>)
    requires SoundRoot(v, ms)
    ensures Find(ms, A.Key("schema_version")) == Some(Num([49]))
    ensures Find(ms, A.Key("name")) == Some(Str(A.Key("native-experience-parity-v1")))
    ensures exists t :: Find(ms, A.Key("research_snapshot_date")) == Some(Str(t)) && v.date(t)
    ensures exists t :: Find(ms, A.Key("source_anchor")) == Some(Str(t)) && |t| == 40
              && forall u | u in t :: ('0' as int <= u <= '9' as int) || ('a' as int <= u <= 'f' as int)
    ensures HoldsText(Find(ms, A.Key("description"))) && HoldsText(Find(ms, A.Key("verify")))
    ensures HoldsText(Find(ms, A.Key("doc")))
  {
    hide A.Key, Find, KnownRoot;
    var anchor := Find(ms, A.Key("source_anchor")).value.s;
    assert forall u | u in anchor :: 48 <= u <= 57 || 97 <= u <= 102;
  }

  lemma RootSound(v: Vocabulary, ms: seq<Member>)
    ensures Invalid !in RootFindings(v, ms) <==> SoundRoot(v, ms)
    ensures SoundRoot(v, ms) ==> RootFindings(v, ms) == []
  {
    hide KnownRoot, IsSnapshot, IsAnchorText, IsFilled, Find, A.Key;
  }

  /** Without a hard finding the manifest is sound, and what is left is one key-order finding for each
      row with its keys out of order, and one row-order finding if the rows are. */
  lemma RepairableIsSound(v: Vocabulary, m: Json)
    ensures Repairable(v, m) <==> SoundManifest(v, m)
    ensures SoundManifest(v, m) ==>
              AllObjects(RowsOf(m)) && Findings(v, m) == KeyOrders(RowsOf(m)) + OrderFindings(RowsOf(m))
  {
    hide RootFindings, SoundRoot, RowsFindings, SoundRow, DistinctIds, IdSet, TypedRow, Find, InOrder, A.Decimal,
         CountName, SnapshotName, CapabilitiesName;
    if m.Obj? {
      var ms := m.members;
      RootSound(v, ms);
      var caps := Find(ms, CapabilitiesName());
      if caps.Some? && caps.value.Arr? {
        var rows, snapshot := caps.value.items, Find(ms, SnapshotName());
        RowsSound(v, rows, snapshot);
        var c := Flag(Find(ms, CountName()) != Some(Num(A.Decimal(|rows|))), Invalid);
        var r, o := RowsFindings(v, rows, snapshot).0, OrderFindings(rows);
        assert Findings(v, m) == RootFindings(v, ms) + (c + r + o);
        assert Invalid in Findings(v, m) <==> Invalid in RootFindings(v, ms) || Invalid in c || Invalid in r;
        if SoundManifest(v, m) {
          assert [] + ([] + r + o) == r + o;
          SoundNeverThrows(v, m);
        }
      }
    }
  }

  lemma SoundNeverThrows(v: Vocabulary, m: Json)
    requires SoundManifest(v, m)
    ensures !Throws(m)
  {
    hide SoundRoot, DistinctIds, Find, A.Decimal, CountName, CapabilitiesName, SnapshotName, RowThrows, SoundRow,
         TypedRow, Unprintable;
    var rows, snapshot := RowsOf(m), Find(m.members, SnapshotName());
    CountPrints(Find(m.members, CountName()), |rows|);
    forall i | 0 <= i < |rows| ensures !RowThrows(rows[i]) && rows[i].Obj? && Placeable(rows[i]) {
      SoundRowPrints(v, rows[i], snapshot);
    }
  }

  lemma SoundRowPrints(v: Vocabulary, row: Json, snapshot: Option<Json>)
    requires SoundRow(v, row, snapshot) && TypedRow(row)
    ensures !RowThrows(row) && row.Obj? && Placeable(row)
  {
    hide ExactKeys, Find, FieldsOf, OneOf, NullOrOneOf, A.Key, StatusOf, ClassOf, SourceOf, StabilityOf, RiskOf;
    var ms := row.members;
    VocabularyPrints(StatusOf(ms), Statuses());
    VocabularyPrints(ClassOf(ms), Classifications());
    VocabularyPrints(SourceOf(ms), SourceTypes());
    VocabularyPrints(StabilityOf(ms), Stabilities());
    VocabularyPrints(RiskOf(ms), RiskClasses());
  }

  lemma SoundSurfaces(v: Vocabulary, rows: seq<Json>, snapshot: Option<Json>)
    requires SoundRows(v, rows, snapshot)
    ensures KnownSurfaces(rows)
  {
    hide ExactKeys, Find, FieldsOf, IsSurface, IsId, IsFilled;
    forall i | 0 <= i < |rows| ensures IsSurface(Find(rows[i].members, SurfaceName())) {
      assert SoundRow(v, rows[i], snapshot);
    }
  }

  lemma CanonicalSound(v: Vocabulary, row: Json, snapshot: Option<Json>)
    requires SoundRow(v, row, snapshot) && TypedRow(row)
    ensures var r := CanonicalRow(row);
            SoundRow(v, r, snapshot) && TypedRow(r) && RowPlace(r) == RowPlace(row) && IdOf(r) == IdOf(row)
  {
    hide ExactKeys, Find, FieldsOf, IsSurface, SurfaceRank, RowKey, Rebuild, RowFields;
    CanonicalKeeps(row);
  }

  /** The rows Format writes. */
  function NewRows(rows: seq<Json>): seq<Json>
    requires Typed(rows)
  {
    CanonicalRows(SortRows(rows))
  }

  lemma PermutedSound(v: Vocabulary, rows: seq<Json>, snapshot: Option<Json>)
    requires SoundRows(v, rows, snapshot)
    ensures EachSound(v, SortRows(rows), snapshot) && |SortRows(rows)| == |rows| && Neat(SortRows(rows))
  {
    hide SoundRow, IdOf, RowPlace, TypedRow, InsertRow;
    SoundSurfaces(v, rows, snapshot);
    SortKeeps(rows);
    var r := SortRows(rows);
    assert |multiset(r)| == |multiset(rows)|;
    forall i | 0 <= i < |r| ensures SoundRow(v, r[i], snapshot) {
      assert r[i] in multiset(rows);
      var k :| 0 <= k < |rows| && rows[k] == r[i];
    }
  }

  /** The rows written are sound, sorted and in key order. */
  lemma NewRowsSound(v: Vocabulary, rows: seq<Json>, snapshot: Option<Json>)
    requires SoundRows(v, rows, snapshot)
    ensures SoundRows(v, NewRows(rows), snapshot) && SortedRows(NewRows(rows)) && |NewRows(rows)| == |rows|
    ensures forall i | 0 <= i < |rows| ::
              var r := NewRows(rows)[i]; r.Obj? && ExactKeys(r.members) && KeysOf(r.members) == RowFields()
  {
    hide IdOf, RowPlace, SoundRow, ExactKeys, RowFields, Before, CanonicalRow, SortRows;
    PermutedSound(v, rows, snapshot);
    var s, r := SortRows(rows), NewRows(rows);
    forall i | 0 <= i < |r|
      ensures r[i] == CanonicalRow(s[i]) && SoundRow(v, r[i], snapshot) && TypedRow(r[i])
      ensures RowPlace(r[i]) == RowPlace(s[i]) && IdOf(r[i]) == IdOf(s[i])
      ensures r[i].Obj? && ExactKeys(r[i].members) && KeysOf(r[i].members) == RowFields()
    {
      NewRow(v, s[i], snapshot);
    }
  }

  lemma NewRow(v: Vocabulary, row: Json, snapshot: Option<Json>)
    requires SoundRow(v, row, snapshot) && TypedRow(row)
    ensures var r := CanonicalRow(row);
            && SoundRow(v, r, snapshot) && TypedRow(r) && RowPlace(r) == RowPlace(row) && IdOf(r) == IdOf(row)
            && r.Obj? && ExactKeys(r.members) && KeysOf(r.members) == RowFields()
  {
    hide IdOf, RowPlace, TypedRow, ExactKeys, RowFields, FieldsOf, IsSurface, IsId, IsFilled, Rebuild;
    CanonicalSound(v, row, snapshot);
    CanonicalKeeps(row);
  }

  lemma RootNames()
    ensures CountName() !in ScalarFields() && CapabilitiesName() !in ScalarFields() && CountName() != CapabilitiesName()
    ensures SnapshotName() in ScalarFields()
  {
  }

  /** Every root field but the rows keeps its value, and no field is added or lost. */
  lemma FormatRoot(v: Vocabulary, m: Json, k: Text)
    requires SoundManifest(v, m)
    ensures Find(Format(m).members, k)
         == if k == CapabilitiesName() then Some(Arr(NewRows(RowsOf(m)))) else Find(m.members, k)
  {
    hide Find, SoundRows, A.Decimal, CountName, CapabilitiesName, ScalarFields, TypedRow, IsSnapshot, IsAnchorText,
         IsFilled, SortRows;
    var ms, rows := m.members, RowsOf(m);
    assert |NewRows(rows)| == |rows| by { NewRowsSound(v, rows, Find(ms, SnapshotName())); }
    var tail := [Member(CountName(), Num(A.Decimal(|rows|))), Member(CapabilitiesName(), Arr(NewRows(rows)))];
    assert Format(m) == Obj(Rebuild(ScalarFields(), ms) + tail);
    FindAppend(Rebuild(ScalarFields(), ms), tail, k);
    FindRebuild(ScalarFields(), ms, k);
    FindTwo(tail, k);
    RootNames();
    ScalarsPresent(v, ms, k);
  }

  lemma FindTwo(tail: seq<Member>, k: Text)
    requires |tail| == 2
    ensures Find(tail, k) == if k == tail[0].key then Some(tail[0].value)
                             else if k == tail[1].key then Some(tail[1].value) else None
  {
    assert tail[1..][0] == tail[1] && Find(tail[1..][1..], k) == None;
  }

  /** A sound root holds every scalar field, and besides the rows and their number nothing else. */
  lemma ScalarsPresent(v: Vocabulary, ms: seq<Member>, k: Text)
    requires SoundRoot(v, ms)
    ensures k in ScalarFields() ==> Find(ms, k).Some?
    ensures Find(ms, k).Some? ==> k in RootFields()
  {
    hide Find, A.Key;
    FindKey(ms, k);
    if k in KeysOf(ms) {
      var i :| 0 <= i < |ms| && ms[i].key == k;
    }
  }

  lemma FormatSound(v: Vocabulary, m: Json)
    requires SoundManifest(v, m)
    ensures SoundManifest(v, Format(m)) && RowsOf(Format(m)) == NewRows(RowsOf(m)) && SortedRows(RowsOf(Format(m)))
    ensures AllObjects(RowsOf(Format(m)))
    ensures forall i | 0 <= i < |RowsOf(Format(m))| :: KeysOf(RowsOf(Format(m))[i].members) == RowFields()
  {
    hide Find, SoundRoot, SortedRows, NewRows, A.Decimal, Format, KnownRoot, SoundRow, DistinctIds, CountName,
         CapabilitiesName, SnapshotName, TypedRow, RowFields;
    FormatKnown(m);
    forall k ensures Find(Format(m).members, k)
                  == if k == CapabilitiesName() then Some(Arr(NewRows(RowsOf(m)))) else Find(m.members, k)
    {
      FormatRoot(v, m, k);
    }
    NewRowsSound(v, RowsOf(m), Find(m.members, SnapshotName()));
    SoundCopied(v, m, Format(m), NewRows(RowsOf(m)));
  }

  lemma RootDiffers()
    ensures var c := CapabilitiesName();
            && c != A.Key("schema_version") && c != A.Key("name") && c != A.Key("description") && c != SnapshotName()
            && c != A.Key("source_anchor") && c != A.Key("verify") && c != A.Key("doc") && c != CountName()
  {
  }

  /** Soundness depends on the fields of the root alone. */
  lemma SoundCopied(v: Vocabulary, m: Json, n: Json, rows: seq<Json>)
    requires SoundManifest(v, m) && n.Obj? && KnownRoot(n.members) && |rows| == |RowsOf(m)|
    requires forall k :: Find(n.members, k) == if k == CapabilitiesName() then Some(Arr(rows)) else Find(m.members, k)
    requires SoundRows(v, rows, Find(m.members, SnapshotName()))
    ensures SoundManifest(v, n) && RowsOf(n) == rows
  {
    hide Find, SoundRow, DistinctIds, A.Decimal, KnownRoot, IsSnapshot, IsAnchorText, IsFilled, A.Key, CountName,
         CapabilitiesName, SnapshotName, TypedRow;
    RootDiffers();
  }

  lemma FormatKnown(m: Json)
    requires TypedManifest(m)
    ensures Format(m).Obj? && KnownRoot(Format(m).members)
  {
    hide ScalarFields, SortRows, CanonicalRows, Find, A.Decimal, CountName, CapabilitiesName;
    RebuildKeys(ScalarFields(), m.members);
    var r := Rebuild(ScalarFields(), m.members);
    forall i | 0 <= i < |r| ensures r[i].key in ScalarFields() { assert KeysOf(r)[i] == ScalarFields()[i]; }
  }

  /** Formatting a manifest whose form alone is at fault leaves nothing to find. */
  lemma FormatRepairs(v: Vocabulary, m: Json)
    requires Repairable(v, m)
    ensures TypedManifest(m) && !Throws(Format(m)) && Findings(v, Format(m)) == []
  {
    hide Repairable, Findings, Find, SoundRows, SoundRoot, Format, RowsOf, KeyOrders, OrderFindings, RowFields, Throws;
    RepairableIsSound(v, m);
    FormatSound(v, m);
    SoundNeverThrows(v, Format(m));
    RepairableIsSound(v, Format(m));
    NoKeyOrders(RowsOf(Format(m)));
    NoRowOrder(RowsOf(Format(m)));
  }

  lemma NoRowOrder(rows: seq<Json>)
    requires Typed(rows) && SortedRows(rows)
    ensures OrderFindings(rows) == []
  {
    hide SortedRows, InOrder, TypedRow;
    InOrderSorted(rows);
  }

  lemma {:induction false} NoKeyOrders(rows: seq<Json>)
    requires AllObjects(rows)
    ensures KeyOrders(rows) == [] <==> forall i | 0 <= i < |rows| :: KeysOf(rows[i].members) == RowFields()
  {
    hide RowFields;
    if |rows| > 0 {
      var n := |rows| - 1;
      NoKeyOrders(rows[..n]);
      forall i | 0 <= i < n ensures rows[..n][i] == rows[i] {}
    }
  }

  /** The fields of each row. */
  function FieldMaps(rows: seq<Json>): seq<map<Text, Json>>
    requires AllObjects(rows)
  {
    if |rows| == 0 then [] else [FieldsOf(rows[0].members)] + FieldMaps(rows[1..])
  }

  lemma {:induction false} InsertMaps(row: Json, rows: seq<Json>)
    requires TypedRow(row) && Typed(rows)
    ensures AllObjects(rows) && AllObjects(InsertRow(row, rows))
    ensures multiset(FieldMaps(InsertRow(row, rows))) == multiset{FieldsOf(row.members)} + multiset(FieldMaps(rows))
  {
    hide Before, RowPlace, FieldsOf;
    if |rows| > 0 {
      if Before(RowPlace(row), RowPlace(rows[0])) {
        assert ([row] + rows)[1..] == rows;
      } else {
        var r := InsertRow(row, rows[1..]);
        InsertMaps(row, rows[1..]);
        assert ([rows[0]] + r)[1..] == r;
      }
    }
  }

  lemma {:induction false} SortMaps(rows: seq<Json>)
    requires Typed(rows)
    ensures AllObjects(rows) && AllObjects(SortRows(rows))
    ensures multiset(FieldMaps(SortRows(rows))) == multiset(FieldMaps(rows))
  {
    hide Before, RowPlace, FieldsOf, InsertRow;
    if |rows| > 0 {
      SortMaps(rows[1..]);
      InsertMaps(rows[0], SortRows(rows[1..]));
    }
  }

  lemma {:induction false} CanonicalMaps(rows: seq<Json>)
    requires AllObjects(rows) && forall i | 0 <= i < |rows| :: ExactKeys(rows[i].members)
    ensures AllObjects(CanonicalRows(rows)) && FieldMaps(CanonicalRows(rows)) == FieldMaps(rows)
  {
    hide ExactKeys, FieldsOf, CanonicalRow;
    if |rows| > 0 {
      CanonicalKeeps(rows[0]);
      CanonicalMaps(rows[1..]);
      var r := CanonicalRows(rows[1..]);
      assert ([CanonicalRow(rows[0])] + r)[1..] == r;
      forall i | 0 <= i < |rows| ensures CanonicalRow(rows[i]).Obj? { CanonicalIsObject(rows[i]); }
    }
  }

  lemma CanonicalIsObject(row: Json)
    requires row.Obj?
    ensures CanonicalRow(row).Obj?
  {
  }

  /** Formatting keeps the content: each root field but the rows is as before, no field is added or
      lost, and the rows are a permutation of the rows before, each with the same field values. */
  lemma FormatKeepsContent(v: Vocabulary, m: Json)
    requires Repairable(v, m)
    ensures TypedManifest(m) && TypedManifest(Format(m))
    ensures forall k | k != CapabilitiesName() :: Find(Format(m).members, k) == Find(m.members, k)
    ensures AllObjects(RowsOf(m)) && AllObjects(RowsOf(Format(m)))
    ensures multiset(FieldMaps(RowsOf(Format(m)))) == multiset(FieldMaps(RowsOf(m)))
  {
    hide Repairable, Findings, Find, Format, SoundRoot, KeyOrders, OrderFindings, RowFields, DistinctIds, SoundRow,
         SortRows, FieldMaps, Neat, CapabilitiesName, CountName, SnapshotName, A.Decimal, TypedRow;
    RepairableIsSound(v, m);
    FormatSound(v, m);
    forall k | k != CapabilitiesName() ensures Find(Format(m).members, k) == Find(m.members, k) { FormatRoot(v, m, k); }
    var rows, snapshot := RowsOf(m), Find(m.members, SnapshotName());
    PermutedSound(v, rows, snapshot);
    SoundExact(v, SortRows(rows), snapshot);
    SortMaps(rows);
    CanonicalMaps(SortRows(rows));
  }

  lemma SoundExact(v: Vocabulary, rows: seq<Json>, snapshot: Option<Json>)
    requires EachSound(v, rows, snapshot)
    ensures AllObjects(rows) && forall i | 0 <= i < |rows| :: ExactKeys(rows[i].members)
  {
    hide ExactKeys, Find, FieldsOf, IsSurface, IsId, IsFilled;
    forall i | 0 <= i < |rows| ensures rows[i].Obj? && ExactKeys(rows[i].members) {
      assert SoundRow(v, rows[i], snapshot);
    }
  }

  /** Formatting again gives the same value, so the same bytes. */
  lemma FormatAgain(v: Vocabulary, m: Json)
    requires Repairable(v, m)
    ensures TypedManifest(m) && TypedManifest(Format(m)) && Format(Format(m)) == Format(m)
  {
    hide Repairable, Findings, Find, SoundRoot, KeyOrders, OrderFindings, RowFields, DistinctIds, SoundRow, SortRows,
         Neat, CapabilitiesName, CountName, SnapshotName, A.Decimal, TypedRow, SortedRows, NewRows, Rebuild,
         ScalarFields;
    RepairableIsSound(v, m);
    FormatSound(v, m);
    var n, rows := Format(m), RowsOf(m);
    NewRowsAgain(v, rows, Find(m.members, SnapshotName()));
    ScalarsAgain(v, m);
    FormatIs(m);
    FormatIs(n);
  }

  lemma FormatIs(m: Json)
    requires TypedManifest(m)
    ensures Format(m) == Obj(Rebuild(ScalarFields(), m.members)
              + [Member(CountName(), Num(A.Decimal(|NewRows(RowsOf(m))|))),
                 Member(CapabilitiesName(), Arr(NewRows(RowsOf(m))))])
  {
    hide Rebuild, SortRows, CanonicalRows, Find, ScalarFields, A.Decimal;
  }

  lemma ScalarsAgain(v: Vocabulary, m: Json)
    requires SoundManifest(v, m) && TypedManifest(Format(m))
    ensures Rebuild(ScalarFields(), Format(m).members) == Rebuild(ScalarFields(), m.members)
  {
    hide Rebuild, Find, ScalarFields, Format, SoundRoot, SoundRows, RowsOf, CapabilitiesName, CountName;
    RootNames();
    forall k | k in ScalarFields() ensures Find(Format(m).members, k) == Find(m.members, k) { FormatRoot(v, m, k); }
    RebuildAgree(ScalarFields(), Format(m).members, m.members);
  }

  lemma {:induction false} RebuildAgree(fs: seq<Text>, ms: seq<Member>, ns: seq<Member>)
    requires forall k | k in fs :: Find(ms, k) == Find(ns, k)
    ensures Rebuild(fs, ms) == Rebuild(fs, ns)
  {
    hide Find;
    if |fs| > 0 { RebuildAgree(fs[1..], ms, ns); }
  }

  lemma NewRowsAgain(v: Vocabulary, rows: seq<Json>, snapshot: Option<Json>)
    requires SoundRows(v, rows, snapshot)
    ensures Typed(NewRows(rows)) && NewRows(NewRows(rows)) == NewRows(rows)
  {
    hide SoundRow, IdOf, RowPlace, TypedRow, Before, CanonicalRow, SortRows, SortedRows, ExactKeys, RowFields;
    NewRowsSound(v, rows, snapshot);
    PermutedSound(v, rows, snapshot);
    var s, r := SortRows(rows), NewRows(rows);
    SortedFixed(r);
    SoundExact(v, s, snapshot);
    forall i | 0 <= i < |r| ensures CanonicalRow(r[i]) == r[i] { CanonicalAgain(s[i]); }
    assert CanonicalRows(r) == r;
  }

  /** Form is found at fault exactly when formatting would change the rows. */
  lemma CleanIffCanonical(v: Vocabulary, m: Json)
    requires Repairable(v, m) && WellFormed(m)
    ensures TypedManifest(m) && TypedManifest(Format(m))
    ensures Findings(v, m) == [] <==> RowsOf(Format(m)) == RowsOf(m)
  {
    hide Repairable, Findings, Find, SoundRoot, KeyOrders, OrderFindings, RowFields, DistinctIds, SoundRow, SortRows,
         Neat, CapabilitiesName, CountName, SnapshotName, A.Decimal, TypedRow, SortedRows, NewRows, Format, InOrder,
         WellFormed;
    RepairableIsSound(v, m);
    FormatSound(v, m);
    var rows := RowsOf(m);
    NoKeyOrders(rows);
    InOrderSorted(rows);
    OrderFlag(v, rows);
    if Findings(v, m) == [] {
      RowsDistinct(m);
      AlreadyCanonical(v, rows, Find(m.members, SnapshotName()));
    }
  }

  lemma OrderFlag(v: Vocabulary, rows: seq<Json>)
    requires AllObjects(rows)
    ensures OrderFindings(rows) == [] <==> InOrder(rows)
  {
    hide InOrder;
  }

  lemma {:induction false} MemberWellFormed(ms: seq<Member>, k: Text)
    requires forall i | 0 <= i < |ms| :: WellFormed(ms[i].value)
    ensures Find(ms, k).Some? ==> WellFormed(Find(ms, k).value)
  {
    hide WellFormed;
    if |ms| > 0 {
      forall i | 0 <= i < |ms| - 1 ensures WellFormed(ms[1..][i].value) { assert ms[1..][i] == ms[i + 1]; }
      MemberWellFormed(ms[1..], k);
    }
  }

  lemma RowsDistinct(m: Json)
    requires WellFormed(m) && TypedManifest(m)
    ensures AllObjects(RowsOf(m)) && forall i | 0 <= i < |RowsOf(m)| :: DistinctKeys(RowsOf(m)[i].members)
  {
    hide Find, DistinctKeys, CapabilitiesName;
    MemberWellFormed(m.members, CapabilitiesName());
    var rows := RowsOf(m);
    assert WellFormed(Arr(rows));
    forall i | 0 <= i < |rows| ensures rows[i].Obj? && DistinctKeys(rows[i].members) {
      assert TypedRow(rows[i]) && WellFormed(rows[i]);
    }
  }

  lemma AlreadyCanonical(v: Vocabulary, rows: seq<Json>, snapshot: Option<Json>)
    requires SoundRows(v, rows, snapshot) && AllObjects(rows) && SortedRows(rows)
    requires forall i | 0 <= i < |rows| :: KeysOf(rows[i].members) == RowFields() && DistinctKeys(rows[i].members)
    ensures NewRows(rows) == rows
  {
    hide SoundRow, IdOf, RowPlace, TypedRow, Before, CanonicalRow, SortRows, SortedRows, RowFields, DistinctKeys;
    SortedFixed(rows);
    forall i | 0 <= i < |rows| ensures CanonicalRow(rows[i]) == rows[i] { CanonicalFixed(rows[i]); }
    assert CanonicalRows(rows) == rows;
  }

  /** Why an unknown root field is a hard finding: formatting would delete it. */
  lemma UnknownFieldWouldVanish(v: Vocabulary, m: Json, extra: Member)
    requires Repairable(v, m) && extra.key !in RootFields()
    ensures var n := Obj(m.members + [extra]);
            && TypedManifest(m) && TypedManifest(n)
            && !Throws(n) && Findings(v, n) == [Invalid] + Findings(v, m) && Format(n) == Format(m)
  {
    hide Repairable, Findings, Find, SoundRoot, KeyOrders, OrderFindings, RowFields, DistinctIds, SoundRow, SortRows,
         Neat, Throws, CountName, SnapshotName, A.Decimal, TypedRow, SortedRows, NewRows, Rebuild, ScalarFields,
         A.Key;
    RepairableIsSound(v, m);
    var ms, ns := m.members, m.members + [extra];
    forall k | k in RootFields() ensures Find(ns, k) == Find(ms, k) {
      FindAppend(ms, [extra], k);
      FindOne(extra, k);
    }
    RebuildAgree(ScalarFields(), ns, ms);
    FormatIs(m);
    FormatIs(Obj(ns));
    SoundNeverThrows(v, m);
    SameThrows(m, Obj(ns));
    ExtraFinding(v, ms, extra);
  }

  lemma SameThrows(m: Json, n: Json)
    requires m.Obj? && n.Obj? && Find(m.members, CountName()) == Find(n.members, CountName())
    requires Find(m.members, CapabilitiesName()) == Find(n.members, CapabilitiesName())
    ensures Throws(m) <==> Throws(n)
  {
    hide Find, CountName, CapabilitiesName, RowsThrow, ScanThrows, Unprintable;
  }

  lemma FindOne(e: Member, k: Text)
    requires k != e.key
    ensures Find([e], k) == None
  {
  }

  lemma ExtraFinding(v: Vocabulary, ms: seq<Member>, extra: Member)
    requires SoundRoot(v, ms) && extra.key !in RootFields()
    requires forall k | k in RootFields() :: Find(ms + [extra], k) == Find(ms, k)
    ensures Findings(v, Obj(ms + [extra])) == [Invalid] + Findings(v, Obj(ms))
  {
    hide Find, A.Key, IsSnapshot, IsAnchorText, IsFilled, RowsFindings, OrderFindings, A.Decimal;
    var ns := ms + [extra];
    assert ns[|ms|] == extra && !KnownRoot(ns);
    RootSound(v, ms);
    assert RootFindings(v, ns) == [Invalid];
    assert CapabilitiesFindings(v, ns) == CapabilitiesFindings(v, ms);
  }
}
