/** `auditAppend`: tenant check, lookup before append, head read and insert, over a table of audit
    events keyed by id and an index of each chain's ids in sequence order. */
module AuditAppend {
  import opened Wrappers
  import opened Utf16
  import opened CanonicalJson
  import opened AuditChain

  datatype Evidence = HmacInternal | DevSigned

  function EvidenceText(e: Option<Evidence>): Text
  {
    if e == Some(DevSigned) then Key("dev_signed") else Key("hmac_internal")
  }

  datatype AppendInput = AppendInput(
    orgId: Text, chainId: Text, eventType: Text, eventVersion: Text, subjectType: Text,
    subjectId: Text, occurredAt: Text, payloadHash: Bytes, payload: Option<Bytes>,
    dekWrapped: Option<Bytes>, keyId: Text, keyVersion: int, redaction: Json,
    evidence: Option<Evidence>, eventId: Option<Text>)

  /** The column on which an existing event diverges from the input. */
  datatype Field =
    | OrgId | ChainId | EventType | EventVersion | SubjectType | SubjectId | PayloadHash
    | PayloadStoragePresence | PayloadPresence | KeyId | KeyVersion | EvidenceStrength
    | SealerCaptureId

  datatype AppendError =
    | TenantMismatch
    | EventIdNotUuid
    | Divergent(field: Field)
    | NotSerializable
    | StorageRejected

  datatype AppendOutcome = Appended(row: EventRow) | Reused(row: EventRow) | Rejected(error: AppendError)

  // ---------------------------------------------------------------------------------------
  // The event table
  // ---------------------------------------------------------------------------------------

  datatype Events = Events(table: map<Text, EventRow>, order: map<Text, seq<Text>>)

  const NO_EVENTS := Events(map[], map[])

  function Ids(ev: Events, chain: Text): seq<Text>
  {
    if chain in ev.order then ev.order[chain] else []
  }

  /** The index lists exactly the rows of each chain, at the place their sequence number says. */
  ghost predicate Indexed(ev: Events)
  {
    && (forall c, i | 0 <= i < |Ids(ev, c)| :: ListedAt(ev, c, i))
    && (forall id | id in ev.table :: HasPlace(ev, id))
  }

  predicate ListedAt(ev: Events, c: Text, i: nat)
    requires i < |Ids(ev, c)|
  {
    var id := Ids(ev, c)[i];
    id in ev.table && ev.table[id].f.chainId == c && ev.table[id].f.sequence == i + 1
  }

  predicate HasPlace(ev: Events, id: Text)
    requires id in ev.table
  {
    var f := ev.table[id].f;
    f.id == id && 0 < f.sequence <= |Ids(ev, f.chainId)| && Ids(ev, f.chainId)[f.sequence - 1] == id
  }

  /** `SELECT … WHERE chain_id = $1 ORDER BY sequence_number`. */
  function ChainRows(ev: Events, chain: Text): (rows: seq<EventRow>)
    requires Indexed(ev)
    ensures |rows| == |Ids(ev, chain)|
  {
    assert forall i | 0 <= i < |Ids(ev, chain)| :: ListedAt(ev, chain, i) && Ids(ev, chain)[i] in ev.table;
    seq(|Ids(ev, chain)|, i requires 0 <= i < |Ids(ev, chain)| => ev.table[Ids(ev, chain)[i]])
  }

  // ---------------------------------------------------------------------------------------
  // Lookup before append
  // ---------------------------------------------------------------------------------------

  function Find(ms: seq<Member>, k: Text): (r: Option<Json>)
  {
    if |ms| == 0 then None else if ms[0].key == k then Some(ms[0].value) else Find(ms[1..], k)
  }

  /** `redaction_metadata.audit_sealer.capture_id`, when it is a string. */
  function ReadSealerCaptureId(redaction: Json): Option<Text>
  {
    if !redaction.Obj? then None
    else
      var sealer := Find(redaction.members, Key("audit_sealer"));
      if sealer.None? || !sealer.value.Obj? then None
      else
        var id := Find(sealer.value.members, Key("capture_id"));
        if id.Some? && id.value.Str? then Some(id.value.s) else None
  }

  /** `assertExistingEventMatches`: the first divergent field, in the order of the checks. */
  function FirstDivergence(input: AppendInput, f: EventFields): Option<Field>
  {
    if f.orgId != input.orgId then Some(OrgId)
    else if f.chainId != input.chainId then Some(ChainId)
    else if f.eventType != input.eventType then Some(EventType)
    else if f.eventVersion != input.eventVersion then Some(EventVersion)
    else if f.subjectType != input.subjectType then Some(SubjectType)
    else if f.subjectId != input.subjectId then Some(SubjectId)
    else if f.payloadHash != input.payloadHash then Some(PayloadHash)
    else if input.payload.Some? != input.dekWrapped.Some? then Some(PayloadStoragePresence)
    else if f.payloadRef.Some? != input.payload.Some? then Some(PayloadPresence)
    else if f.keyId != input.keyId then Some(KeyId)
    else if f.keyVersion != input.keyVersion then Some(KeyVersion)
    else if f.evidence != EvidenceText(input.evidence) then Some(EvidenceStrength)
    else if ReadSealerCaptureId(input.redaction).Some?
         && ReadSealerCaptureId(f.redaction) != ReadSealerCaptureId(input.redaction) then Some(SealerCaptureId)
    else None
  }

  predicate IsUuid(t: Text)
  {
    && |t| == 36
    && forall i | 0 <= i < 36 ::
         if i == 8 || i == 13 || i == 18 || i == 23 then t[i] == 45 else JS.IsHex(t[i])
  }

  import JS = JsonStrings

  // ---------------------------------------------------------------------------------------
  // The append
  // ---------------------------------------------------------------------------------------

  /** The highest row of a chain that row-level security lets a session see. */
  function VisibleHead(rows: seq<EventRow>, session: Text): Option<EventRow>
  {
    if |rows| == 0 then None
    else if rows[|rows| - 1].f.orgId == session then Some(rows[|rows| - 1])
    else VisibleHead(rows[..|rows| - 1], session)
  }

  /** The event an append writes after the head it sees, as the caller spells its ids. */
  function NewFields(ev: Events, input: AppendInput, id: Text, payloadId: Text): EventFields
    requires Indexed(ev)
  {
    var head := VisibleHead(ChainRows(ev, input.chainId), input.orgId);
    EventFields(
      id, input.orgId, input.chainId,
      if head.None? then 1 else head.value.f.sequence + 1, if head.None? then None else Some(head.value.hmac),
      input.eventType, input.eventVersion, input.subjectType, input.subjectId, input.occurredAt,
      input.payloadHash, if input.payload.Some? then Some(payloadId) else None,
      input.keyId, input.keyVersion, EvidenceText(input.evidence), input.redaction)
  }

  /** The columns that hold an event: uuid columns hold what they read; None when a cast throws. */
  function Stored(crypto: Crypto, f: EventFields): (r: Option<EventFields>)
    ensures r.Some? ==> r.value == f.(id := r.value.id, orgId := r.value.orgId, subjectId := r.value.subjectId,
                                      payloadRef := r.value.payloadRef)
    ensures r.Some? ==> crypto.uuid(f.id) == Some(r.value.id) && crypto.uuid(f.subjectId) == Some(r.value.subjectId)
    ensures r.Some? ==> r.value.payloadRef.Some? == f.payloadRef.Some?
  {
    var id, org, subject := crypto.uuid(f.id), crypto.uuid(f.orgId), crypto.uuid(f.subjectId);
    var payload := if f.payloadRef.Some? then crypto.uuid(f.payloadRef.value) else None;
    if id.None? || org.None? || subject.None? || payload.Some? != f.payloadRef.Some? then None
    else Some(f.(id := id.value, orgId := org.value, subjectId := subject.value, payloadRef := payload))
  }

  /** The row of an event: its columns, and the hash and HMAC of its canonical bytes. */
  ghost function RowOf(crypto: Crypto, f: EventFields, stored: EventFields): EventRow
    requires Canonical(EventJson(crypto, f)).Some?
  {
    var bytes := crypto.utf8(Canonical(EventJson(crypto, f)).value);
    EventRow(stored, crypto.hmac(KeyOf(f), bytes), crypto.sha256(bytes), bytes)
  }

  function Inserted(ev: Events, row: EventRow): Events
  {
    Events(ev.table[row.f.id := row], ev.order[row.f.chainId := Ids(ev, row.f.chainId) + [row.f.id]])
  }

  /** The event id an append uses: the caller's, or a fresh random one. */
  function ChosenId(input: AppendInput, freshId: Text): Text
  {
    if input.eventId.Some? then input.eventId.value else freshId
  }

  /** The events visible to a lookup by id under the session's row-level security. */
  predicate Visible(ev: Events, id: Text, session: Text)
  {
    id in ev.table && ev.table[id].f.orgId == session
  }

  /** UNIQUE (chain_id, sequence_number), which row-level security does not hide. */
  predicate NumberTaken(ev: Events, chain: Text, n: nat)
    requires Indexed(ev)
  {
    exists i | 0 <= i < |ChainRows(ev, chain)| :: ChainRows(ev, chain)[i].f.sequence == n
  }

  /** The checks of `audit_append_locked` and of the tables it writes. */
  predicate Storable(ev: Events, input: AppendInput, stored: Option<EventFields>)
    requires Indexed(ev)
  {
    && stored.Some? && stored.value.orgId == input.orgId && (input.payload.Some? ==> input.dekWrapped.Some?)
    && stored.value.id !in ev.table && !NumberTaken(ev, input.chainId, stored.value.sequence)
  }

  /** What `auditAppend` returns in a session whose `app.org_id` is `session`; the table it leaves
      behind is `AfterAppend`. */
  ghost function Append(crypto: Crypto, ev: Events, session: Option<Text>, input: AppendInput,
                        freshId: Text, payloadId: Text): (r: AppendOutcome)
    requires Indexed(ev)
  {
    var id := ChosenId(input, freshId);
    var key := crypto.uuid(id);
    if session.None? || session.value == [] || session.value != input.orgId then Rejected(TenantMismatch)
    else if input.eventId.Some? && !IsUuid(id) then Rejected(EventIdNotUuid)
    else if input.eventId.Some? && key.None? then Rejected(StorageRejected)
    else if input.eventId.Some? && Visible(ev, key.value, session.value) then
      var d := FirstDivergence(input, ev.table[key.value].f);
      if d.Some? then Rejected(Divergent(d.value)) else Reused(ev.table[key.value])
    else
      var f := NewFields(ev, input, id, payloadId);
      if Canonical(EventJson(crypto, f)).None? then Rejected(NotSerializable)
      else if !Storable(ev, input, Stored(crypto, f)) then Rejected(StorageRejected)
      else Appended(RowOf(crypto, f, Stored(crypto, f).value))
  }

  function AfterAppend(ev: Events, r: AppendOutcome): Events
  {
    if r.Appended? then Inserted(ev, r.row) else ev
  }

  /** The table as the transaction sees it. */
  class AuditStore {
    var events: Events

    constructor ()
      ensures events == NO_EVENTS
    {
      events := NO_EVENTS;
    }

    /** `auditAppend`, statement by statement, inside a transaction that holds the chain lock. */
    method AuditAppend(crypto: Crypto, session: Option<Text>, input: AppendInput,
                       freshId: Text, payloadId: Text) returns (r: AppendOutcome)
      requires Indexed(events) && WellFormed(input.redaction)
      modifies this
      ensures r == Append(crypto, old(events), session, input, freshId, payloadId)
      ensures events == AfterAppend(old(events), r)
    {
      hide Canonical, EventJson, Indexed, Stored, FirstDivergence, WellFormed, ChainRows;
      if session.None? || session.value == [] || session.value != input.orgId {
        return Rejected(TenantMismatch);
      }
      var id := freshId;
      if input.eventId.Some? {
        id := input.eventId.value;
        if !IsUuid(id) { return Rejected(EventIdNotUuid); }
        var key := crypto.uuid(id);
        if key.None? { return Rejected(StorageRejected); }
        if Visible(events, key.value, session.value) {
          var existing := events.table[key.value];
          var d := FirstDivergence(input, existing.f);
          if d.Some? { return Rejected(Divergent(d.value)); }
          return Reused(existing);
        }
      }
      var f := NewFields(events, input, id, payloadId);
      EventJsonWellFormed(crypto, f);
      var canonical := Stringify(EventJson(crypto, f));
      if canonical.None? { return Rejected(NotSerializable); }
      var canonicalBytes := crypto.utf8(canonical.value);
      var stored := Stored(crypto, f);
      if !Storable(events, input, stored) { return Rejected(StorageRejected); }
      var hmac, hash := crypto.hmac(KeyOf(f), canonicalBytes), crypto.sha256(canonicalBytes);
      var row := EventRow(stored.value, hmac, hash, canonicalBytes);
      events := Inserted(events, row);
      return Appended(row);
    }
  }

  // ---------------------------------------------------------------------------------------
  // What every append keeps
  // ---------------------------------------------------------------------------------------

  /** Every row carries the canonical bytes of an event its columns hold, signed for its tenant. */
  ghost predicate Bound(crypto: Crypto, row: EventRow)
  {
    exists f :: Stored(crypto, f) == Some(row.f) && BoundTo(crypto, row, f)
  }

  ghost predicate BoundTo(crypto: Crypto, row: EventRow, f: EventFields)
  {
    f.orgId == row.f.orgId && Canonical(EventJson(crypto, f)).Some? && row == RowOf(crypto, f, row.f)
  }

  /** No chain holds events of two tenants. */
  predicate OneTenantEach(ev: Events)
  {
    forall a, b | a in ev.table && b in ev.table && ev.table[a].f.chainId == ev.table[b].f.chainId ::
      ev.table[a].f.orgId == ev.table[b].f.orgId
  }

  /** The chain holds an event of another tenant. */
  predicate TakenByOther(ev: Events, chain: Text, org: Text)
  {
    exists id | id in ev.table :: ev.table[id].f.chainId == chain && ev.table[id].f.orgId != org
  }

  /** The table is indexed, every chain verifies and is one tenant's, and every row is bound to its
      columns. */
  ghost predicate EventsValid(crypto: Crypto, ev: Events)
  {
    && Indexed(ev) && OneTenantEach(ev)
    && (forall c | c in ev.order :: ChainValid(crypto, ChainRows(ev, c)))
    && (forall id | id in ev.table :: Bound(crypto, ev.table[id]))
  }

  lemma InsertedIndexed(ev: Events, row: EventRow)
    requires Indexed(ev) && row.f.id !in ev.table && row.f.sequence == |Ids(ev, row.f.chainId)| + 1
    ensures Indexed(Inserted(ev, row))
  {
    var e := Inserted(ev, row);
    IdsInserted(ev, row);
    hide Inserted, Ids;
    forall c, i | 0 <= i < |Ids(e, c)| ensures ListedAt(e, c, i) {
      if i < |Ids(ev, c)| { assert ListedAt(ev, c, i); }
    }
    forall id | id in e.table ensures HasPlace(e, id) {
      if id != row.f.id { assert HasPlace(ev, id); }
    }
  }

  lemma IdsInserted(ev: Events, row: EventRow)
    ensures Inserted(ev, row).table == ev.table[row.f.id := row]
    ensures forall c :: Ids(Inserted(ev, row), c) == if c == row.f.chainId then Ids(ev, c) + [row.f.id] else Ids(ev, c)
  {
  }

  lemma InsertedRows(ev: Events, row: EventRow, c: Text)
    requires Indexed(ev) && row.f.id !in ev.table && Indexed(Inserted(ev, row))
    ensures ChainRows(Inserted(ev, row), c)
         == if c == row.f.chainId then ChainRows(ev, c) + [row] else ChainRows(ev, c)
  {
    var e := Inserted(ev, row);
    IdsInserted(ev, row);
    hide Inserted, Ids;
    forall i | 0 <= i < |Ids(ev, c)| ensures ChainRows(e, c)[i] == ChainRows(ev, c)[i] {
      assert ListedAt(ev, c, i);
    }
  }

  lemma ExtendValid(crypto: Crypto, rows: seq<EventRow>, row: EventRow)
    requires ChainValid(crypto, rows)
    requires row.f.sequence == |rows| + 1 && row.f.previousHmac == Link(rows, |rows|) && ContentOk(crypto, row)
    ensures ChainValid(crypto, rows + [row])
  {
    hide ContentOk;
    var r := rows + [row];
    forall i | 0 <= i < |r| ensures RowValid(crypto, r, i) {
      if i < |rows| { assert RowValid(crypto, rows, i); }
    }
  }

  /** An append keeps every chain verifiable, and adds at most one row at the end of one chain. */
  lemma AppendKeepsChains(crypto: Crypto, ev: Events, session: Option<Text>, input: AppendInput,
                          freshId: Text, payloadId: Text)
    requires EventsValid(crypto, ev)
    ensures var r := Append(crypto, ev, session, input, freshId, payloadId);
            var e := AfterAppend(ev, r);
            && EventsValid(crypto, e)
            && (r.Appended? ==>
                  && r.row.f.id !in ev.table && e.table == ev.table[r.row.f.id := r.row]
                  && ChainRows(e, input.chainId) == ChainRows(ev, input.chainId) + [r.row])
            && (!r.Appended? ==> e == ev)
            && (r.Reused? ==> r.row.f.id in ev.table && ev.table[r.row.f.id] == r.row)
  {
    hide EventsValid, Indexed, Inserted, ChainRows, Bound;
    EventsIndexed(crypto, ev);
    var r := Append(crypto, ev, session, input, freshId, payloadId);
    OutcomeRow(crypto, ev, session, input, freshId, payloadId);
    if r.Appended? {
      InsertKeepsChains(crypto, ev, r.row);
      InsertedRows(ev, r.row, input.chainId);
      IdsInserted(ev, r.row);
    }
  }

  lemma EventsIndexed(crypto: Crypto, ev: Events)
    requires EventsValid(crypto, ev)
    ensures Indexed(ev)
  {
  }

  lemma {:induction false} VisibleHeadIs(rows: seq<EventRow>, session: Text)
    ensures VisibleHead(rows, session).None? ==> forall k | 0 <= k < |rows| :: rows[k].f.orgId != session
    ensures VisibleHead(rows, session).Some? ==> exists k | 0 <= k < |rows| :: IsHead(rows, session, k)
  {
    if |rows| > 0 {
      var n := |rows| - 1;
      if rows[n].f.orgId == session {
        assert IsHead(rows, session, n);
      } else {
        VisibleHeadIs(rows[..n], session);
        if VisibleHead(rows[..n], session).Some? {
          var k :| 0 <= k < n && IsHead(rows[..n], session, k);
          assert IsHead(rows, session, k);
        }
      }
    }
  }

  predicate IsHead(rows: seq<EventRow>, session: Text, k: nat)
    requires k < |rows|
  {
    VisibleHead(rows, session) == Some(rows[k]) && rows[k].f.orgId == session
  }

  lemma RowAt(ev: Events, chain: Text, k: nat)
    requires Indexed(ev) && k < |ChainRows(ev, chain)|
    ensures ChainRows(ev, chain)[k].f.sequence == k + 1 && ChainRows(ev, chain)[k].f.chainId == chain
    ensures var row := ChainRows(ev, chain)[k]; row.f.id in ev.table && ev.table[row.f.id] == row
  {
    assert ListedAt(ev, chain, k);
    assert HasPlace(ev, Ids(ev, chain)[k]);
  }

  /** An event whose number is free follows the last row of its chain, which is its own tenant's. */
  lemma FreeNumberIsNext(ev: Events, input: AppendInput, id: Text, payloadId: Text)
    requires Indexed(ev) && !NumberTaken(ev, input.chainId, NewFields(ev, input, id, payloadId).sequence)
    ensures var rows, f := ChainRows(ev, input.chainId), NewFields(ev, input, id, payloadId);
            && f.sequence == |rows| + 1 && f.previousHmac == Link(rows, |rows|)
            && (|rows| > 0 ==> rows[|rows| - 1].f.orgId == input.orgId)
  {
    hide Indexed, ChainRows, VisibleHead;
    var rows := ChainRows(ev, input.chainId);
    VisibleHeadIs(rows, input.orgId);
    if VisibleHead(rows, input.orgId).None? {
      if |rows| > 0 { RowAt(ev, input.chainId, 0); }
    } else {
      var k :| 0 <= k < |rows| && IsHead(rows, input.orgId, k);
      RowAt(ev, input.chainId, k);
      if k + 1 < |rows| { RowAt(ev, input.chainId, k + 1); }
    }
  }

  /** The row an append reports: the next one of its chain, or an existing one. */
  lemma OutcomeRow(crypto: Crypto, ev: Events, session: Option<Text>, input: AppendInput,
                   freshId: Text, payloadId: Text)
    requires Indexed(ev)
    ensures var r := Append(crypto, ev, session, input, freshId, payloadId);
            && (r.Appended? ==>
                  && r.row.f.id !in ev.table && r.row.f.chainId == input.chainId
                  && NextRow(ev, r.row) && Bound(crypto, r.row))
            && (r.Reused? ==> r.row.f.id in ev.table && ev.table[r.row.f.id] == r.row)
  {
    hide Canonical, EventJson, FirstDivergence, Indexed, NumberTaken, ChainRows, Stored, NewFields;
    var r := Append(crypto, ev, session, input, freshId, payloadId);
    if r.Reused? {
      EventPlace(ev, crypto.uuid(ChosenId(input, freshId)).value);
    } else if r.Appended? {
      var f := NewFields(ev, input, ChosenId(input, freshId), payloadId);
      FreeNumberIsNext(ev, input, ChosenId(input, freshId), payloadId);
      NewFieldsAre(ev, input, ChosenId(input, freshId), payloadId);
      assert Stored(crypto, f) == Some(r.row.f) && BoundTo(crypto, r.row, f);
    }
  }

  /** On a chain without another tenant's events the next number is free; on one with them it is not. */
  lemma NextIsFree(ev: Events, input: AppendInput, id: Text, payloadId: Text)
    requires Indexed(ev) && OneTenantEach(ev)
    ensures NumberTaken(ev, input.chainId, NewFields(ev, input, id, payloadId).sequence)
       <==> TakenByOther(ev, input.chainId, input.orgId)
  {
    hide Indexed, ChainRows, VisibleHead;
    var rows, n := ChainRows(ev, input.chainId), NewFields(ev, input, id, payloadId).sequence;
    if !NumberTaken(ev, input.chainId, n) {
      FreeNumberIsNext(ev, input, id, payloadId);
      forall e | e in ev.table && ev.table[e].f.chainId == input.chainId ensures ev.table[e].f.orgId == input.orgId {
        ChainNotEmpty(ev, e);
        RowAt(ev, input.chainId, |rows| - 1);
      }
    } else {
      var i :| 0 <= i < |rows| && rows[i].f.sequence == n;
      RowAt(ev, input.chainId, i);
      RowAt(ev, input.chainId, |rows| - 1);
      HeadIsLast(rows, input.orgId);
    }
  }

  lemma HeadIsLast(rows: seq<EventRow>, session: Text)
    ensures |rows| > 0 && rows[|rows| - 1].f.orgId == session ==> VisibleHead(rows, session) == Some(rows[|rows| - 1])
  {
  }

  lemma EventPlace(ev: Events, id: Text)
    requires Indexed(ev) && id in ev.table
    ensures ev.table[id].f.id == id
  {
    assert HasPlace(ev, id);
  }

  lemma NewFieldsAre(ev: Events, input: AppendInput, id: Text, payloadId: Text)
    requires Indexed(ev)
    ensures var f := NewFields(ev, input, id, payloadId);
            f.id == id && f.orgId == input.orgId && f.chainId == input.chainId && f.redaction == input.redaction
  {
  }

  /** The row continues its chain, and the chain is its tenant's. */
  ghost predicate NextRow(ev: Events, row: EventRow)
    requires Indexed(ev)
  {
    var rows := ChainRows(ev, row.f.chainId);
    && row.f.sequence == |rows| + 1 && row.f.previousHmac == Link(rows, |rows|)
    && (|rows| > 0 ==> rows[|rows| - 1].f.orgId == row.f.orgId)
  }

  lemma InsertKeepsChains(crypto: Crypto, ev: Events, row: EventRow)
    requires EventsValid(crypto, ev) && Indexed(ev)
    requires row.f.id !in ev.table && NextRow(ev, row) && Bound(crypto, row)
    ensures Indexed(Inserted(ev, row)) && EventsValid(crypto, Inserted(ev, row))
  {
    hide Canonical, EventJson, Indexed, ChainRows, ChainValid, Inserted, Bound, OneTenantEach;
    var e := Inserted(ev, row);
    InsertedIndexed(ev, row);
    IdsInserted(ev, row);
    BoundContent(crypto, row);
    InsertedOneTenant(ev, row);
    forall c ensures ChainValid(crypto, ChainRows(e, c)) {
      InsertedRows(ev, row, c);
      NoRowsValid(crypto, ev, c);
      if c == row.f.chainId { ExtendValid(crypto, ChainRows(ev, c), row); }
    }
  }

  lemma BoundContent(crypto: Crypto, row: EventRow)
    requires Bound(crypto, row)
    ensures ContentOk(crypto, row)
  {
    hide Canonical, EventJson, Stored;
    var f :| Stored(crypto, f) == Some(row.f) && BoundTo(crypto, row, f);
  }

  lemma InsertedOneTenant(ev: Events, row: EventRow)
    requires Indexed(ev) && OneTenantEach(ev) && row.f.id !in ev.table && NextRow(ev, row)
    ensures OneTenantEach(Inserted(ev, row))
  {
    hide Indexed, ChainRows;
    var rows := ChainRows(ev, row.f.chainId);
    forall id | id in ev.table && ev.table[id].f.chainId == row.f.chainId ensures ev.table[id].f.orgId == row.f.orgId {
      ChainNotEmpty(ev, id);
      RowAt(ev, row.f.chainId, |rows| - 1);
    }
  }

  lemma ChainNotEmpty(ev: Events, id: Text)
    requires Indexed(ev) && id in ev.table
    ensures |ChainRows(ev, ev.table[id].f.chainId)| > 0
  {
    assert HasPlace(ev, id);
  }

  lemma NoRowsValid(crypto: Crypto, ev: Events, c: Text)
    requires EventsValid(crypto, ev)
    ensures ChainValid(crypto, ChainRows(ev, c))
  {
  }

  /** One call of `auditAppend`. */
  datatype Call = Call(session: Option<Text>, input: AppendInput, freshId: Text, payloadId: Text)

  /** The table after a sequence of calls. */
  ghost function RunCalls(crypto: Crypto, calls: seq<Call>): (ev: Events)
    ensures EventsValid(crypto, ev)
  {
    if |calls| == 0 then NO_EVENTS
    else
      var ev := RunCalls(crypto, calls[..|calls| - 1]);
      var c := calls[|calls| - 1];
      AppendKeepsChains(crypto, ev, c.session, c.input, c.freshId, c.payloadId);
      AfterAppend(ev, Append(crypto, ev, c.session, c.input, c.freshId, c.payloadId))
  }

  /** Every chain state reachable through `auditAppend` passes full verification. */
  lemma ReachableChainsVerify(crypto: Crypto, calls: seq<Call>, chain: Text)
    ensures ChainValid(crypto, ChainRows(RunCalls(crypto, calls), chain))
  {
    NoRowsValid(crypto, RunCalls(crypto, calls), chain);
  }

  // ---------------------------------------------------------------------------------------
  // What an append answers
  // ---------------------------------------------------------------------------------------

  /** The input and the recorded event disagree on a column, or the input is not consistent in itself. */
  ghost predicate Differs(input: AppendInput, f: EventFields, field: Field)
  {
    match field
    case OrgId => f.orgId != input.orgId
    case ChainId => f.chainId != input.chainId
    case EventType => f.eventType != input.eventType
    case EventVersion => f.eventVersion != input.eventVersion
    case SubjectType => f.subjectType != input.subjectType
    case SubjectId => f.subjectId != input.subjectId
    case PayloadHash => f.payloadHash != input.payloadHash
    case PayloadStoragePresence => input.payload.Some? <==> input.dekWrapped.None?
    case PayloadPresence => f.payloadRef.Some? <==> input.payload.None?
    case KeyId => f.keyId != input.keyId
    case KeyVersion => f.keyVersion != input.keyVersion
    case EvidenceStrength =>
      f.evidence != if input.evidence == Some(DevSigned) then Key("dev_signed") else Key("hmac_internal")
    case SealerCaptureId =>
      && ReadSealerCaptureId(input.redaction) != None
      && ReadSealerCaptureId(f.redaction) != ReadSealerCaptureId(input.redaction)
  }

  /** The place of a column in the order of the checks. */
  function PlaceOf(field: Field): nat
  {
    match field
    case OrgId => 0
    case ChainId => 1
    case EventType => 2
    case EventVersion => 3
    case SubjectType => 4
    case SubjectId => 5
    case PayloadHash => 6
    case PayloadStoragePresence => 7
    case PayloadPresence => 8
    case KeyId => 9
    case KeyVersion => 10
    case EvidenceStrength => 11
    case SealerCaptureId => 12
  }

  /** No divergence is reported exactly when nothing differs, and otherwise the first difference is. */
  lemma FirstDivergenceIsFirst(input: AppendInput, f: EventFields)
    ensures var d := FirstDivergence(input, f);
            && (d.None? <==> forall x :: !Differs(input, f, x))
            && (d.Some? ==>
                  Differs(input, f, d.value) && forall x | Differs(input, f, x) :: PlaceOf(d.value) <= PlaceOf(x))
  {
    hide ReadSealerCaptureId, Key;
    var d := FirstDivergence(input, f);
    if d.None? {
      forall x ensures !Differs(input, f, x) { assert PlaceOf(x) <= 12; }
    } else {
      assert Differs(input, f, d.value);
    }
  }

  /** The row a lookup by the caller's explicit id finds in the caller's tenant. */
  predicate Finds(crypto: Crypto, ev: Events, session: Option<Text>, input: AppendInput, key: Text)
  {
    && session == Some(input.orgId) && input.orgId != []
    && input.eventId.Some? && IsUuid(input.eventId.value) && crypto.uuid(input.eventId.value) == Some(key)
    && key in ev.table && ev.table[key].f.orgId == input.orgId
  }

  /** An explicit id that finds an event returns it exactly when the input agrees with it on every compared
      column, and otherwise throws the first difference; either way nothing is written. */
  lemma FoundIsReusedOrDivergent(crypto: Crypto, ev: Events, session: Option<Text>, input: AppendInput,
                                 freshId: Text, payloadId: Text, key: Text)
    requires Indexed(ev) && Finds(crypto, ev, session, input, key)
    ensures var r := Append(crypto, ev, session, input, freshId, payloadId);
            && AfterAppend(ev, r) == ev
            && (r == Reused(ev.table[key]) <==> forall x :: !Differs(input, ev.table[key].f, x))
            && (r != Reused(ev.table[key]) ==>
                  && r.Rejected? && r.error.Divergent? && Differs(input, ev.table[key].f, r.error.field)
                  && forall x | Differs(input, ev.table[key].f, x) :: PlaceOf(r.error.field) <= PlaceOf(x))
  {
    hide IsUuid, FirstDivergence, Differs, Indexed, Canonical, EventJson;
    FirstDivergenceIsFirst(input, ev.table[key].f);
  }

  /** Without such an event nothing is reused and nothing diverges; the tenant and the form of the id are
      checked first. */
  lemma UnfoundIsAppendedOrRejected(crypto: Crypto, ev: Events, session: Option<Text>, input: AppendInput,
                                    freshId: Text, payloadId: Text)
    requires Indexed(ev) && forall key :: !Finds(crypto, ev, session, input, key)
    ensures var r := Append(crypto, ev, session, input, freshId, payloadId);
            && !r.Reused? && (r.Rejected? ==> !r.error.Divergent?)
            && (r == Rejected(TenantMismatch) <==> session != Some(input.orgId) || input.orgId == [])
            && (r == Rejected(EventIdNotUuid) <==>
                  && session == Some(input.orgId) && input.orgId != []
                  && input.eventId.Some? && !IsUuid(input.eventId.value))
            && (r.Rejected? ==> AfterAppend(ev, r) == ev)
  {
    hide IsUuid, FirstDivergence, Indexed, Canonical, EventJson;
    if input.eventId.Some? && crypto.uuid(input.eventId.value).Some? {
      assert !Finds(crypto, ev, session, input, crypto.uuid(input.eventId.value).value);
    }
  }

  /** A new event carries every field of the input, its ids as their columns read them. */
  lemma AppendedCarriesInput(crypto: Crypto, ev: Events, session: Option<Text>, input: AppendInput,
                             freshId: Text, payloadId: Text)
    requires Indexed(ev) && Append(crypto, ev, session, input, freshId, payloadId).Appended?
    ensures var f := Append(crypto, ev, session, input, freshId, payloadId).row.f;
            && Some(f.id) == crypto.uuid(if input.eventId.Some? then input.eventId.value else freshId)
            && f.id !in ev.table
            && f.orgId == input.orgId && f.chainId == input.chainId
            && f.eventType == input.eventType && f.eventVersion == input.eventVersion
            && f.subjectType == input.subjectType && Some(f.subjectId) == crypto.uuid(input.subjectId)
            && f.occurredAt == input.occurredAt && f.payloadHash == input.payloadHash
            && f.payloadRef == (if input.payload.None? then None else crypto.uuid(payloadId))
            && f.keyId == input.keyId && f.keyVersion == input.keyVersion && f.redaction == input.redaction
            && f.evidence == (if input.evidence == Some(DevSigned) then Key("dev_signed") else Key("hmac_internal"))
            && (input.payload.Some? ==> input.dekWrapped.Some?)
  {
    hide IsUuid, Canonical, EventJson, Indexed, VisibleHead, ChainRows, NumberTaken, Key;
  }

  // ---------------------------------------------------------------------------------------
  // Idempotence under an explicit id
  // ---------------------------------------------------------------------------------------

  /** Everything `assertExistingEventMatches` compares. */
  ghost predicate SameImmutableContent(a: AppendInput, b: AppendInput)
  {
    && a.eventId == b.eventId && a.orgId == b.orgId && a.chainId == b.chainId
    && a.eventType == b.eventType && a.eventVersion == b.eventVersion
    && a.subjectType == b.subjectType && a.subjectId == b.subjectId && a.payloadHash == b.payloadHash
    && a.payload.Some? == b.payload.Some? && a.dekWrapped.Some? == b.dekWrapped.Some?
    && a.keyId == b.keyId && a.keyVersion == b.keyVersion
    && EvidenceText(a.evidence) == EvidenceText(b.evidence)
    && ReadSealerCaptureId(a.redaction) == ReadSealerCaptureId(b.redaction)
  }

  /** Repeating an append under its explicit id, at any later state that still holds the row it wrote,
      whatever the time stamps and the rest of the metadata of the repeat: it returns that row and
      writes nothing exactly when the subject id is spelled as its column reads it back and no DEK was
      supplied without a payload. */
  lemma RepeatIsReuse(crypto: Crypto, ev: Events, later: Events, session: Text,
                      a: AppendInput, b: AppendInput, freshA: Text, payloadA: Text, freshB: Text, payloadB: Text)
    requires Indexed(ev) && Indexed(later) && SameImmutableContent(a, b) && a.eventId.Some?
    requires Append(crypto, ev, Some(session), a, freshA, payloadA).Appended?
    requires var row := Append(crypto, ev, Some(session), a, freshA, payloadA).row;
             row.f.id in later.table && later.table[row.f.id] == row
    ensures Append(crypto, later, Some(session), b, freshB, payloadB)
         == if crypto.uuid(a.subjectId) != Some(a.subjectId) then Rejected(Divergent(SubjectId))
            else if a.payload.Some? != a.dekWrapped.Some? then Rejected(Divergent(PayloadStoragePresence))
            else Reused(Append(crypto, ev, Some(session), a, freshA, payloadA).row)
  {
    hide Canonical, EventJson, ReadSealerCaptureId, EvidenceText, IsUuid, NumberTaken, VisibleHead;
    var f := NewFields(ev, a, a.eventId.value, payloadA);
    assert Stored(crypto, f).Some?;
  }

  /** As uuid columns fold the case of hexadecimal digits, a repeat with an upper-case subject id is
      rejected as divergent from its own event. */
  lemma UpperCaseSubjectDiverges(crypto: Crypto, ev: Events, session: Text, a: AppendInput, freshId: Text,
                                 payloadId: Text)
    requires forall t | IsUuid(t) :: crypto.uuid(t) == Some(Lower(t))
    requires EventsValid(crypto, ev) && a.eventId.Some? && IsUuid(a.subjectId) && Lower(a.subjectId) != a.subjectId
    requires Append(crypto, ev, Some(session), a, freshId, payloadId).Appended?
    ensures var r := Append(crypto, ev, Some(session), a, freshId, payloadId);
            && Indexed(AfterAppend(ev, r))
            && Append(crypto, AfterAppend(ev, r), Some(session), a, freshId, payloadId)
               == Rejected(Divergent(SubjectId))
  {
    hide Append, EventsValid, Indexed, IsUuid, Canonical, ChainRows, ReadSealerCaptureId;
    EventsIndexed(crypto, ev);
    var r := Append(crypto, ev, Some(session), a, freshId, payloadId);
    AppendKeepsChains(crypto, ev, Some(session), a, freshId, payloadId);
    EventsIndexed(crypto, AfterAppend(ev, r));
    RepeatIsReuse(crypto, ev, AfterAppend(ev, r), session, a, a, freshId, payloadId, freshId, payloadId);
  }

  /** The UUID spelled with one digit throughout. */
  function UuidOf(digit: CodeUnit): Text
  {
    seq(36, i requires 0 <= i < 36 => if i == 8 || i == 13 || i == 18 || i == 23 then 45 else digit)
  }

  /** Such an append happens: into the empty table, with `{}` as metadata. */
  lemma UpperCaseSubjectAppends(crypto: Crypto) returns (session: Text, a: AppendInput)
    requires forall t | IsUuid(t) :: crypto.uuid(t) == Some(Lower(t))
    ensures EventsValid(crypto, NO_EVENTS) && a.eventId.Some?
    ensures IsUuid(a.subjectId) && Lower(a.subjectId) != a.subjectId
    ensures var r := Append(crypto, NO_EVENTS, Some(session), a, [], []);
            && r.Appended? && Indexed(AfterAppend(NO_EVENTS, r))
            && Append(crypto, AfterAppend(NO_EVENTS, r), Some(session), a, [], []) == Rejected(Divergent(SubjectId))
  {
    session := UuidOf(49);
    var subject := UuidOf(65);
    assert Lower(subject)[0] == 97 && Lower(session) == session;
    hide Append, EventsValid, IsUuid, Lower, UuidOf;
    a := AppendInput(session, [], [], [], [], subject, [], [], None, None, [], 1, Obj([]), None, Some(session));
    AppendsToEmpty(crypto, session, a);
    UpperCaseSubjectDiverges(crypto, NO_EVENTS, session, a, [], []);
  }

  /** An event with ids in lower case and plain metadata goes into the empty table. */
  lemma AppendsToEmpty(crypto: Crypto, session: Text, a: AppendInput)
    requires forall t | IsUuid(t) :: crypto.uuid(t) == Some(Lower(t))
    requires a.orgId == session && a.eventId == Some(session) && a.payload.None? && Plain(a.redaction)
    requires IsUuid(session) && Lower(session) == session && IsUuid(a.subjectId)
    ensures EventsValid(crypto, NO_EVENTS) && Append(crypto, NO_EVENTS, Some(session), a, [], []).Appended?
  {
    assert session != [];
    hide IsUuid, Lower, Canonical, EventJson, Plain;
    EventCanonical(crypto, NewFields(NO_EVENTS, a, session, []));
  }
}
