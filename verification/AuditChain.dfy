/** The HMAC chain of audit events: `auditAppend`, the chain verifier and its byte comparison. */
module AuditChain {
  import opened Wrappers
  import opened Utf16
  import opened CanonicalJson

  type Bytes = seq<bv8>

  datatype HmacKey = HmacKey(orgId: Text, keyId: Text, version: int)

  /** The encodings and cryptographic primitives the chain is built on, left uninterpreted. `uuid` is
      the text a uuid column reads back when it is given one; None when the cast throws. */
  datatype Crypto = Crypto(
    uuid: Text -> Option<Text>,
    utf8: Text -> Bytes,
    hex: Bytes -> Text,
    sha256: Bytes -> Bytes,
    hmac: (HmacKey, Bytes) -> Bytes)

  // ---------------------------------------------------------------------------------------
  // hmacVerify
  // ---------------------------------------------------------------------------------------

  lemma XorZero(a: bv8, b: bv8)
    ensures a ^ b == 0 <==> a == b
  {
  }

  lemma OrZero(a: bv8, b: bv8)
    ensures a | b == 0 <==> a == 0 && b == 0
  {
  }

  /** The XOR/OR comparison loop decides byte equality. */
  method HmacVerify(crypto: Crypto, key: HmacKey, message: Bytes, expected: Bytes) returns (ok: bool)
    ensures ok <==> crypto.hmac(key, message) == expected
  {
    var actual := crypto.hmac(key, message);
    if |actual| != |expected| { return false; }
    var diff: bv8 := 0;
    for i := 0 to |actual|
      invariant diff == 0 <==> actual[..i] == expected[..i]
    {
      XorZero(actual[i], expected[i]);
      OrZero(diff, actual[i] ^ expected[i]);
      assert actual[..i + 1] == actual[..i] + [actual[i]];
      assert expected[..i + 1] == expected[..i] + [expected[i]];
      diff := diff | (actual[i] ^ expected[i]);
    }
    assert actual[..|actual|] == actual && expected[..|actual|] == expected;
    return diff == 0;
  }

  // ---------------------------------------------------------------------------------------
  // Events
  // ---------------------------------------------------------------------------------------

  datatype EventFields = EventFields(
    id: Text, orgId: Text, chainId: Text, sequence: nat, previousHmac: Option<Bytes>,
    eventType: Text, eventVersion: Text, subjectType: Text, subjectId: Text, occurredAt: Text,
    payloadHash: Bytes, payloadRef: Option<Text>, keyId: Text, keyVersion: int,
    evidence: Text, redaction: Json)

  /** A row of `govai.audit_events`. */
  datatype EventRow = EventRow(f: EventFields, hmac: Bytes, canonicalHash: Bytes, canonicalBytes: Bytes)

  function Key(s: string): (k: Text)
    ensures |k| == |s|
    ensures forall i | 0 <= i < |s| :: k[i] == s[i] as int % 0x10000
  {
    seq(|s|, i requires 0 <= i < |s| => s[i] as int % 0x10000)
  }

  /** The decimal text of an integer. */
  function Decimal(n: int): (t: Text)
    decreases n < 0, if n < 0 then -n else n
  {
    if n < 0 then [45] + Decimal(-n) else if n < 10 then [48 + n] else Decimal(n / 10) + [48 + n % 10]
  }

  function OrNull(t: Option<Text>): Json
  {
    if t.Some? then Str(t.value) else Null
  }

  /** The object `auditAppend` hands to `canonicalize`. */
  function EventJson(crypto: Crypto, f: EventFields): Json
  {
    Obj([
      Member(Key("event_id"), Str(f.id)),
      Member(Key("org_id"), Str(f.orgId)),
      Member(Key("chain_id"), Str(f.chainId)),
      Member(Key("sequence_number"), Str(Decimal(f.sequence))),
      Member(Key("previous_hmac"),
             OrNull(if f.previousHmac.Some? then Some(crypto.hex(f.previousHmac.value)) else None)),
      Member(Key("event_type"), Str(f.eventType)),
      Member(Key("event_version"), Str(f.eventVersion)),
      Member(Key("subject_type"), Str(f.subjectType)),
      Member(Key("subject_id"), Str(f.subjectId)),
      Member(Key("occurred_at"), Str(f.occurredAt)),
      Member(Key("payload_hash"), Str(crypto.hex(f.payloadHash))),
      Member(Key("payload_ref"), OrNull(f.payloadRef)),
      Member(Key("key_id"), Str(f.keyId)),
      Member(Key("key_version"), Num(Decimal(f.keyVersion))),
      Member(Key("evidence_strength"), Str(f.evidence)),
      Member(Key("redaction_metadata"), f.redaction)])
  }

  function KeyOf(f: EventFields): HmacKey { HmacKey(f.orgId, f.keyId, f.keyVersion) }

  /** A signing key is a tenant's, under its name and version: no two of them coincide. */
  lemma KeysApart(f: EventFields, g: EventFields)
    ensures KeyOf(f) == KeyOf(g) <==> f.orgId == g.orgId && f.keyId == g.keyId && f.keyVersion == g.keyVersion
  {
  }

  // ---------------------------------------------------------------------------------------
  // The canonical text binds every field
  // ---------------------------------------------------------------------------------------

  ghost predicate Injective<A(!new), B(!new)>(f: A -> B) { forall x, y :: f(x) == f(y) ==> x == y }

  /** The value a decimal text denotes. */
  function DecimalValue(t: Text): int
  {
    if |t| == 0 then 0
    else if t[0] == 45 then -DigitsValue(t[1..])
    else DigitsValue(t)
  }

  function DigitsValue(t: Text): int
  {
    if |t| == 0 then 0 else DigitsValue(t[..|t| - 1]) * 10 + (t[|t| - 1] as int - 48)
  }

  lemma {:induction false} DecimalShape(n: nat)
    ensures |Decimal(n)| > 0 && forall i | 0 <= i < |Decimal(n)| :: 48 <= Decimal(n)[i] <= 57
    ensures DigitsValue(Decimal(n)) == n
  {
    if n >= 10 {
      DecimalShape(n / 10);
      assert Decimal(n)[..|Decimal(n)| - 1] == Decimal(n / 10);
    } else {
      assert [48 + n][..0] == [];
    }
  }

  lemma DecimalRoundTrip(n: int)
    ensures DecimalValue(Decimal(n)) == n
    ensures IsNumberText(Decimal(n))
  {
    if n < 0 {
      DecimalShape(-n);
      assert Decimal(n)[1..] == Decimal(-n);
    } else {
      DecimalShape(n);
    }
  }

  /** A name's length and last letter, which tell member names apart. */
  function NameCode(k: Text): int
    requires |k| > 0
  {
    |k| * 1000 + k[|k| - 1]
  }

  lemma KeyCode(t: string, code: int)
    requires |t| > 0 && code == |t| * 1000 + t[|t| - 1] as int && t[|t| - 1] as int < 0x10000
    ensures |Key(t)| > 0 && NameCode(Key(t)) == code
  {
  }

  /** The sixteen member names differ: by length, or by first letter. */
  lemma EventKeysDistinct(crypto: Crypto, f: EventFields)
    ensures DistinctKeys(EventJson(crypto, f).members)
  {
    var ms := EventJson(crypto, f).members;
    assert |ms| == 16;
    forall i, j | 0 <= i < j < 16 ensures ms[i].key != ms[j].key {
      assert |ms[i].key| != |ms[j].key| || ms[i].key[0] != ms[j].key[0];
    }
  }

  lemma EventJsonWellFormed(crypto: Crypto, f: EventFields)
    requires WellFormed(f.redaction)
    ensures WellFormed(EventJson(crypto, f))
  {
    EventKeysDistinct(crypto, f);
    DecimalRoundTrip(f.keyVersion);
  }

  lemma EventPlain(crypto: Crypto, f: EventFields)
    requires Plain(f.redaction)
    ensures Plain(EventJson(crypto, f))
  {
    hide Key, Decimal;
  }

  /** Every event with plain metadata has a canonical text. */
  lemma EventCanonical(crypto: Crypto, f: EventFields)
    requires Plain(f.redaction)
    ensures Canonical(EventJson(crypto, f)).Some?
  {
    hide Render, SortAll, AuditRead;
    EventPlain(crypto, f);
    AuditReadPlain(EventJson(crypto, f));
  }

  lemma {:induction false} NothingDropped(ms: seq<Member>)
    requires forall i | 0 <= i < |ms| :: !ms[i].value.Undefined?
    ensures |AuditReadMembers(ms)| == |ms|
    ensures forall i | 0 <= i < |ms| :: AuditReadMembers(ms)[i] == Member(ms[i].key, AuditRead(ms[i].value))
  {
    if |ms| > 0 { NothingDropped(ms[1..]); }
  }

  /** Objects with the same keys at the same places are the same only value by value. */
  lemma SameByPlace(ms: seq<Member>, ns: seq<Member>, i: nat)
    requires DistinctKeys(ms) && |ns| == |ms| && forall k | 0 <= k < |ms| :: ns[k].key == ms[k].key
    requires forall k | 0 <= k < |ms| :: !ms[k].value.Undefined? && !ns[k].value.Undefined?
    requires Same(AuditRead(Obj(ms)), AuditRead(Obj(ns))) && i < |ms|
    ensures Same(AuditRead(ms[i].value), AuditRead(ns[i].value))
  {
    NothingDropped(ms);
    NothingDropped(ns);
    var j := Partner(AuditRead(Obj(ms)), AuditRead(Obj(ns)), i);
    assert ns[j].key == ms[j].key;
    assert j == i;
  }

  /** Events with one canonical text agree on every field (on the metadata, up to key order). */
  lemma CanonicalTextBindsEvent(crypto: Crypto, f: EventFields, g: EventFields)
    requires Injective(crypto.hex)
    requires f.redaction.Obj? && g.redaction.Obj? && WellFormed(f.redaction) && WellFormed(g.redaction)
    requires Canonical(EventJson(crypto, f)).Some?
    requires Canonical(EventJson(crypto, f)) == Canonical(EventJson(crypto, g))
    ensures f == g.(redaction := f.redaction)
    ensures Same(AuditRead(f.redaction), AuditRead(g.redaction))
  {
    EventJsonWellFormed(crypto, f);
    EventJsonWellFormed(crypto, g);
    CanonicalizeDecides(EventJson(crypto, f), EventJson(crypto, g));
    EventPlaces(crypto, f, g);
    DecimalRoundTrip(f.sequence);
    DecimalRoundTrip(g.sequence);
    DecimalRoundTrip(f.keyVersion);
    DecimalRoundTrip(g.keyVersion);
  }

  lemma EventPlaces(crypto: Crypto, f: EventFields, g: EventFields)
    requires Injective(crypto.hex)
    requires f.redaction.Obj? && g.redaction.Obj?
    requires Same(AuditRead(EventJson(crypto, f)), AuditRead(EventJson(crypto, g)))
    ensures SameHead(f, g) && SameBody(f, g)
    ensures Same(AuditRead(f.redaction), AuditRead(g.redaction))
  {
    hide EventJson, Same, SameHead, SameBody, DistinctKeys;
    EventShape(crypto, f);
    EventShape(crypto, g);
    var ms, ns := EventJson(crypto, f).members, EventJson(crypto, g).members;
    EventKeysDistinct(crypto, f);
    SameKeyNames(crypto, f, g);
    forall i | 0 <= i < 16 ensures Same(AuditRead(ms[i].value), AuditRead(ns[i].value)) {
      SameByPlace(ms, ns, i);
    }
    forall i | 0 <= i < 15 ensures ms[i].value == ns[i].value {
      SameScalar(ms[i].value, ns[i].value);
    }
    HeadFromPlaces(crypto, f, g);
    BodyFromPlaces(crypto, f, g);
  }

  ghost predicate SameHead(f: EventFields, g: EventFields)
  {
    && f.id == g.id && f.orgId == g.orgId && f.chainId == g.chainId
    && Decimal(f.sequence) == Decimal(g.sequence) && f.previousHmac == g.previousHmac
    && f.eventType == g.eventType && f.eventVersion == g.eventVersion
  }

  ghost predicate SameBody(f: EventFields, g: EventFields)
  {
    && f.subjectType == g.subjectType && f.subjectId == g.subjectId && f.occurredAt == g.occurredAt
    && f.payloadHash == g.payloadHash && f.payloadRef == g.payloadRef && f.keyId == g.keyId
    && Decimal(f.keyVersion) == Decimal(g.keyVersion) && f.evidence == g.evidence
  }

  lemma EventShape(crypto: Crypto, f: EventFields)
    requires f.redaction.Obj?
    ensures EventJson(crypto, f).Obj? && |EventJson(crypto, f).members| == 16
    ensures EventJson(crypto, f).members[15].value == f.redaction
    ensures forall i | 0 <= i < 15 :: var v := EventJson(crypto, f).members[i].value; v.Str? || v.Num? || v.Null?
  {
  }

  lemma SameKeyNames(crypto: Crypto, f: EventFields, g: EventFields)
    ensures |EventJson(crypto, f).members| == |EventJson(crypto, g).members| == 16
    ensures forall i | 0 <= i < 16 :: EventJson(crypto, f).members[i].key == EventJson(crypto, g).members[i].key
  {
    hide Key;
  }

  lemma HeadFromPlaces(crypto: Crypto, f: EventFields, g: EventFields)
    requires Injective(crypto.hex)
    requires |EventJson(crypto, f).members| == |EventJson(crypto, g).members| == 16
    requires forall i | 0 <= i < 15 :: EventJson(crypto, f).members[i].value == EventJson(crypto, g).members[i].value
    ensures SameHead(f, g)
  {
    hide Key, Decimal;
    var ms, ns := EventJson(crypto, f).members, EventJson(crypto, g).members;
    assert ms[0].value == ns[0].value && ms[1].value == ns[1].value && ms[2].value == ns[2].value;
    assert ms[3].value == ns[3].value && ms[4].value == ns[4].value && ms[5].value == ns[5].value;
    assert ms[6].value == ns[6].value;
  }

  lemma FactsFromPlaces(crypto: Crypto, f: EventFields, g: EventFields)
    requires Injective(crypto.hex)
    requires |EventJson(crypto, f).members| == |EventJson(crypto, g).members| == 16
    requires forall i | 0 <= i < 15 :: EventJson(crypto, f).members[i].value == EventJson(crypto, g).members[i].value
    ensures f.subjectType == g.subjectType && f.subjectId == g.subjectId && f.occurredAt == g.occurredAt
    ensures f.payloadHash == g.payloadHash
  {
    hide Key, Decimal;
    var ms, ns := EventJson(crypto, f).members, EventJson(crypto, g).members;
    assert ms[7].value == ns[7].value && ms[8].value == ns[8].value && ms[9].value == ns[9].value;
    assert ms[10].value == ns[10].value;
  }

  lemma BodyFromPlaces(crypto: Crypto, f: EventFields, g: EventFields)
    requires Injective(crypto.hex)
    requires |EventJson(crypto, f).members| == |EventJson(crypto, g).members| == 16
    requires forall i | 0 <= i < 15 :: EventJson(crypto, f).members[i].value == EventJson(crypto, g).members[i].value
    ensures SameBody(f, g)
  {
    hide Key, Decimal;
    FactsFromPlaces(crypto, f, g);
    var ms, ns := EventJson(crypto, f).members, EventJson(crypto, g).members;
    assert ms[11].value == ns[11].value && ms[12].value == ns[12].value;
    assert ms[13].value == ns[13].value && ms[14].value == ns[14].value;
  }

  lemma SameScalar(v: Json, w: Json)
    requires v.Str? || v.Num? || v.Null?
    requires Same(AuditRead(v), AuditRead(w))
    ensures v == w
  {
  }

  // ---------------------------------------------------------------------------------------
  // Chain verification
  // ---------------------------------------------------------------------------------------

  datatype Reason = SequenceGap | PreviousNullMismatch | PreviousBreak | HashMismatch | HmacMismatch

  datatype VerifyResult = VerifyResult(
    valid: bool, events: nat, firstInvalidSeq: Option<nat>, reason: Option<Reason>)

  predicate ContentOk(crypto: Crypto, row: EventRow)
  {
    && row.canonicalHash == crypto.sha256(row.canonicalBytes)
    && row.hmac == crypto.hmac(KeyOf(row.f), row.canonicalBytes)
  }

  /** The HMAC the row at `i` must link back to. */
  function Link(rows: seq<EventRow>, i: nat): Option<Bytes>
    requires i <= |rows|
  {
    if i == 0 then None else Some(rows[i - 1].hmac)
  }

  predicate RowValid(crypto: Crypto, rows: seq<EventRow>, i: nat)
    requires i < |rows|
  {
    rows[i].f.sequence == i + 1 && rows[i].f.previousHmac == Link(rows, i) && ContentOk(crypto, rows[i])
  }

  /** Sequences are 1..n, links match, hashes and HMACs match. */
  ghost predicate ChainValid(crypto: Crypto, rows: seq<EventRow>)
  {
    forall i | 0 <= i < |rows| :: RowValid(crypto, rows, i)
  }

  /** The first check the row at `i` fails, in the verifier's order. */
  function FaultAt(crypto: Crypto, rows: seq<EventRow>, i: nat): (r: Option<Reason>)
    requires i < |rows|
    ensures r.None? <==> RowValid(crypto, rows, i)
  {
    var row := rows[i];
    if row.f.sequence != i + 1 then Some(SequenceGap)
    else if row.f.previousHmac.Some? != Link(rows, i).Some? then Some(PreviousNullMismatch)
    else if row.f.previousHmac != Link(rows, i) then Some(PreviousBreak)
    else if row.canonicalHash != crypto.sha256(row.canonicalBytes) then Some(HashMismatch)
    else if row.hmac != crypto.hmac(KeyOf(row.f), row.canonicalBytes) then Some(HmacMismatch)
    else None
  }

  /** The rows come in ascending sequence order, as the query returns them. */
  method VerifyFullChain(crypto: Crypto, rows: seq<EventRow>) returns (r: VerifyResult)
    ensures r.events == |rows|
    ensures r.valid <==> ChainValid(crypto, rows)
    ensures r.valid ==> r.firstInvalidSeq == None && r.reason == None
    ensures !r.valid ==> exists k | 0 <= k < |rows| ::
              && (forall i | 0 <= i < k :: RowValid(crypto, rows, i)) && !RowValid(crypto, rows, k)
              && r.firstInvalidSeq == Some(rows[k].f.sequence) && r.reason == FaultAt(crypto, rows, k)
  {
    var expectedSeq := 1;
    var prev: Option<Bytes> := None;
    for k := 0 to |rows|
      invariant expectedSeq == k + 1 && prev == Link(rows, k)
      invariant forall i | 0 <= i < k :: RowValid(crypto, rows, i)
    {
      var row := rows[k];
      var seqNo := row.f.sequence;
      if seqNo != expectedSeq {
        assert !RowValid(crypto, rows, k);
        return VerifyResult(false, |rows|, Some(seqNo), Some(SequenceGap));
      }
      if prev.None? != row.f.previousHmac.None? {
        assert !RowValid(crypto, rows, k);
        return VerifyResult(false, |rows|, Some(seqNo), Some(PreviousNullMismatch));
      }
      if prev.Some? && row.f.previousHmac.Some? && prev.value != row.f.previousHmac.value {
        assert !RowValid(crypto, rows, k);
        return VerifyResult(false, |rows|, Some(seqNo), Some(PreviousBreak));
      }
      if crypto.sha256(row.canonicalBytes) != row.canonicalHash {
        assert !RowValid(crypto, rows, k);
        return VerifyResult(false, |rows|, Some(seqNo), Some(HashMismatch));
      }
      var ok := HmacVerify(crypto, KeyOf(row.f), row.canonicalBytes, row.hmac);
      if !ok {
        assert !RowValid(crypto, rows, k);
        return VerifyResult(false, |rows|, Some(seqNo), Some(HmacMismatch));
      }
      prev := Some(row.hmac);
      expectedSeq := expectedSeq + 1;
    }
    return VerifyResult(true, |rows|, None, None);
  }

  /** The last `window` rows, in ascending order. */
  function Tail(rows: seq<EventRow>, window: nat): (t: seq<EventRow>)
    ensures |t| == if window < |rows| then window else |rows|
    ensures forall i | 0 <= i < |t| :: t[i] == rows[|rows| - |t| + i]
  {
    if window < |rows| then rows[|rows| - window..] else rows
  }

  /** What the tail verifier asks of one row: its content, and its link when it has one. */
  predicate TailRowValid(crypto: Crypto, t: seq<EventRow>, i: nat)
    requires i < |t|
  {
    && ContentOk(crypto, t[i])
    && (i > 0 && t[i].f.previousHmac.Some? ==> t[i].f.previousHmac.value == t[i - 1].hmac)
  }

  /** The first check the tail verifier finds failed. */
  function TailFaultAt(crypto: Crypto, t: seq<EventRow>, i: nat): (r: Option<Reason>)
    requires i < |t|
    ensures r.None? <==> TailRowValid(crypto, t, i)
  {
    var row := t[i];
    if row.canonicalHash != crypto.sha256(row.canonicalBytes) then Some(HashMismatch)
    else if row.hmac != crypto.hmac(KeyOf(row.f), row.canonicalBytes) then Some(HmacMismatch)
    else if i > 0 && row.f.previousHmac.Some? && row.f.previousHmac.value != t[i - 1].hmac then Some(PreviousBreak)
    else None
  }

  method VerifyTailWindow(crypto: Crypto, rows: seq<EventRow>, window: nat) returns (r: VerifyResult)
    ensures r.events == |Tail(rows, window)|
    ensures r.valid <==> forall i | 0 <= i < |Tail(rows, window)| :: TailRowValid(crypto, Tail(rows, window), i)
    ensures r.valid ==> r.firstInvalidSeq == None && r.reason == None
    ensures !r.valid ==> exists k | 0 <= k < |Tail(rows, window)| ::
              && (forall i | 0 <= i < k :: TailRowValid(crypto, Tail(rows, window), i))
              && !TailRowValid(crypto, Tail(rows, window), k)
              && r.firstInvalidSeq == Some(Tail(rows, window)[k].f.sequence)
              && r.reason == TailFaultAt(crypto, Tail(rows, window), k)
  {
    var t := Tail(rows, window);
    if |t| == 0 { return VerifyResult(true, 0, None, None); }
    var prev := t[0].f.previousHmac;
    for k := 0 to |t|
      invariant prev == if k == 0 then t[0].f.previousHmac else Some(t[k - 1].hmac)
      invariant forall i | 0 <= i < k :: TailRowValid(crypto, t, i)
    {
      var row := t[k];
      if crypto.sha256(row.canonicalBytes) != row.canonicalHash {
        assert !TailRowValid(crypto, t, k);
        return VerifyResult(false, |t|, Some(row.f.sequence), Some(HashMismatch));
      }
      var ok := HmacVerify(crypto, KeyOf(row.f), row.canonicalBytes, row.hmac);
      if !ok {
        assert !TailRowValid(crypto, t, k);
        return VerifyResult(false, |t|, Some(row.f.sequence), Some(HmacMismatch));
      }
      if prev.Some? && row.f.previousHmac.Some? && prev.value != row.f.previousHmac.value {
        assert !TailRowValid(crypto, t, k);
        return VerifyResult(false, |t|, Some(row.f.sequence), Some(PreviousBreak));
      }
      prev := Some(row.hmac);
    }
    return VerifyResult(true, |t|, None, None);
  }

  /** A chain the full verifier accepts is accepted by the tail verifier at every window size. */
  lemma FullValidityImpliesTail(crypto: Crypto, rows: seq<EventRow>, window: nat, i: nat)
    requires ChainValid(crypto, rows) && i < |Tail(rows, window)|
    ensures TailRowValid(crypto, Tail(rows, window), i)
  {
    var k := |rows| - |Tail(rows, window)| + i;
    assert RowValid(crypto, rows, k);
    if i > 0 { assert RowValid(crypto, rows, k - 1); }
  }

  /** What the full verifier adds: a chain is valid exactly when the tail verifier accepts it whole, its
      rows are numbered 1..n, and every row but the first has a link. */
  lemma FullIsTailNumberedAndLinked(crypto: Crypto, rows: seq<EventRow>)
    ensures ChainValid(crypto, rows)
       <==> && (forall i | 0 <= i < |rows| :: TailRowValid(crypto, Tail(rows, |rows|), i))
            && (forall i | 0 <= i < |rows| :: rows[i].f.sequence == i + 1)
            && (forall i | 0 <= i < |rows| :: rows[i].f.previousHmac.Some? <==> i > 0)
  {
    hide ContentOk;
    var whole := Tail(rows, |rows|);
    assert whole == rows;
    if ChainValid(crypto, rows) {
      forall i | 0 <= i < |rows|
        ensures TailRowValid(crypto, rows, i) && rows[i].f.sequence == i + 1
                && (rows[i].f.previousHmac.Some? <==> i > 0)
      {
        assert RowValid(crypto, rows, i);
      }
    } else {
      var k :| 0 <= k < |rows| && !RowValid(crypto, rows, k);
      assert !TailRowValid(crypto, whole, k) || rows[k].f.sequence != k + 1 || rows[k].f.previousHmac.Some? != (k > 0);
    }
  }

  /** So the converse fails: two rows with ids and numbers of their own, the second without a link, pass
      the tail verifier at every window size and not the full one. */
  lemma TailAcceptsWhatFullRejects(crypto: Crypto, f: EventFields, g: EventFields, a: Bytes, b: Bytes)
    requires f.id != g.id && f.chainId == g.chainId && f.sequence == 1 && g.sequence == 2
    requires f.previousHmac == None && g.previousHmac == None
    ensures var rows := [EventRow(f, crypto.hmac(KeyOf(f), a), crypto.sha256(a), a),
                         EventRow(g, crypto.hmac(KeyOf(g), b), crypto.sha256(b), b)];
            && FaultAt(crypto, rows, 1) == Some(PreviousNullMismatch) && !ChainValid(crypto, rows)
            && (forall w: nat, i | 0 <= i < |Tail(rows, w)| :: TailRowValid(crypto, Tail(rows, w), i))
  {
    var rows := [EventRow(f, crypto.hmac(KeyOf(f), a), crypto.sha256(a), a),
                 EventRow(g, crypto.hmac(KeyOf(g), b), crypto.sha256(b), b)];
    assert !RowValid(crypto, rows, 1);
  }
}
