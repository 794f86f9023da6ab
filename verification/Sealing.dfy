/** The sealing protocol as a state machine over committed steps: captures, one-transaction seals,
    library callers that commit between claim, append and mark_sealed, stale recoveries, failures
    and foreign appends, in any order. A crash or a rollback is a step that is not taken. */
module SealingProtocol {
  import opened Wrappers
  import opened Utf16
  import opened CanonicalJson
  import opened AuditChain
  import opened AuditAppend
  import opened Outbox

  /** The database, and what some worker may still hold in memory: captures it claimed or loaded,
      and captures whose append returned to it. Nothing is ever removed from the two sets, so a
      worker may act late, twice, or never. */
  datatype State = State(db: Db, held: set<Claimed>, appended: set<Claimed>)

  const INITIAL := State(EMPTY_DB, {}, {})

  datatype Step =
    | Capture(session: Text, id: Text, orgId: Text, chainId: Text, c: Content)
    | Claim(session: Text, orgId: Text, chainId: Text)
    | Load(session: Text, orgId: Text, id: Text)
    | AppendHeld(session: Text, cl: Claimed, worker: Option<Text>, sealedAt: Text)
    | MarkAppended(session: Text, cl: Claimed)
    | SealNext(session: Text, orgId: Text, chainId: Text, worker: Option<Text>, sealedAt: Text)
    | RecoverHeld(session: Text, cl: Claimed, worker: Option<Text>, sealedAt: Text)
    | Fail(session: Text, orgId: Text, id: Text)
    | ForeignAppend(session: Text, input: AppendInput, freshId: Text, payloadId: Text)

  /** Captures come with uuid and jsonb parameters; foreign appends neither use the derived id of a
      capture nor stamp the sealer's block. */
  ghost predicate Admissible(env: Env, step: Step)
  {
    match step
    case Capture(_, id, orgId, _, c) =>
      && WellFormed(c.redaction) && Plain(c.redaction) && Known(env, orgId, id)
      && InColumn(env, orgId) && InColumn(env, c.subjectId)
    case ForeignAppend(_, input, freshId, _) =>
      && WellFormed(input.redaction) && ReadSealerCaptureId(input.redaction).None?
      && forall o, c | Known(env, o, c) :: env.crypto.uuid(ChosenId(input, freshId)) != Some(env.derive(o, c))
    case _ => true
  }

  // ---------------------------------------------------------------------------------------
  // The phases
  // ---------------------------------------------------------------------------------------

  datatype AppendPhase = BuilderRefused | AppendFailed(error: AppendError) | AppendDone(events: Events, eventId: Text)

  /** Build, derive the id and append, as both the sealer and the recovery do. */
  ghost function AppendPhaseOf(env: Env, ev: Events, session: Text, cl: Claimed,
                               worker: Option<Text>, sealedAt: Text): (r: AppendPhase)
    requires Indexed(ev)
  {
    var input := Build(env, cl, worker, sealedAt);
    if input.None? then BuilderRefused
    else
      var out := Append(env.crypto, ev, Some(session), input.value, [], []);
      if out.Rejected? then AppendFailed(out.error)
      else AppendDone(AfterAppend(ev, out), out.row.f.id)
  }

  datatype SealResult = Idle | SealedOne(id: Text, eventId: Text) | Threw

  /** `sealNextAuditCapture` inside one transaction: the outcome and the state it would commit. */
  ghost function SealOnce(env: Env, db: Db, session: Text, orgId: Text, chainId: Text,
                          worker: Option<Text>, sealedAt: Text): (r: (Db, SealResult))
    requires Indexed(db.events)
    ensures r.1.SealedOne? ==> Claimable(db, chainId, r.1.id)
  {
    match ClaimForSeal(db, session, orgId, chainId)
    case ClaimDenied => (db, Threw)
    case NothingToClaim => (db, Idle)
    case ClaimedRow(id) =>
      var claimed := SetStatus(db, id, Sealing);
      var a := AppendPhaseOf(env, db.events, session, ClaimedOf(id, db.outbox[id]), worker, sealedAt);
      if !a.AppendDone? then (db, Threw)
      else
        var marked := MarkSealed(claimed.(events := a.events), session, db.outbox[id].orgId, id, a.eventId);
        if marked.None? then (db, Threw) else (marked.value, SealedOne(id, a.eventId))
  }

  datatype RecoverResult = RecoverSealed(eventId: Text) | RecoverThrew(builder: bool, error: Option<AppendError>)

  /** The append and mark_sealed half of a recovery transaction that loaded `cl`. */
  ghost function RecoverOnce(env: Env, db: Db, session: Text, cl: Claimed,
                             worker: Option<Text>, sealedAt: Text): (r: (Db, RecoverResult))
    requires Indexed(db.events)
  {
    match AppendPhaseOf(env, db.events, session, cl, worker, sealedAt)
    case BuilderRefused => (db, RecoverThrew(true, None))
    case AppendFailed(e) => (db, RecoverThrew(false, Some(e)))
    case AppendDone(events, eventId) =>
      var marked := MarkSealed(db.(events := events), session, cl.orgId, cl.captureId, eventId);
      if marked.None? then (db, RecoverThrew(false, None)) else (marked.value, RecoverSealed(eventId))
  }

  /** One committed step; a step that throws commits nothing. */
  ghost function Next(env: Env, s: State, step: Step): State
    requires Indexed(s.db.events)
  {
    match step
    case Capture(session, id, orgId, chainId, c) =>
      var r := InsertLocked(s.db, session, id, orgId, chainId, c);
      if r.None? then s else s.(db := r.value)
    case Claim(session, orgId, chainId) =>
      var r := ClaimForSeal(s.db, session, orgId, chainId);
      if !r.ClaimedRow? then s
      else s.(db := SetStatus(s.db, r.id, Sealing), held := s.held + {ClaimedOf(r.id, s.db.outbox[r.id])})
    case Load(session, orgId, id) =>
      var r := LoadSealing(s.db, session, orgId, id);
      if r.Loaded? then s.(held := s.held + {r.cl}) else s
    case AppendHeld(session, cl, worker, sealedAt) =>
      if cl !in s.held then s
      else
        var a := AppendPhaseOf(env, s.db.events, session, cl, worker, sealedAt);
        if !a.AppendDone? then s
        else s.(db := s.db.(events := a.events), appended := s.appended + {cl})
    case MarkAppended(session, cl) =>
      if cl !in s.appended then s
      else
        var r := MarkSealed(s.db, session, cl.orgId, cl.captureId, env.derive(cl.orgId, cl.captureId));
        if r.None? then s else s.(db := r.value)
    case SealNext(session, orgId, chainId, worker, sealedAt) =>
      s.(db := SealOnce(env, s.db, session, orgId, chainId, worker, sealedAt).0)
    case RecoverHeld(session, cl, worker, sealedAt) =>
      if cl !in s.held then s else s.(db := RecoverOnce(env, s.db, session, cl, worker, sealedAt).0)
    case Fail(session, orgId, id) =>
      var r := MarkFailed(s.db, session, orgId, id);
      if r.None? then s else s.(db := r.value)
    case ForeignAppend(session, input, freshId, payloadId) =>
      var r := Append(env.crypto, s.db.events, Some(session), input, freshId, payloadId);
      s.(db := s.db.(events := AfterAppend(s.db.events, r)))
  }

  // ---------------------------------------------------------------------------------------
  // The invariant
  // ---------------------------------------------------------------------------------------

  /** Each row sits in a known chain of its org, at a captured sequence number, and sealed rows are
      exactly those up to the chain's sealed mark; a row being sealed is the next one. */
  ghost predicate RowOk(env: Env, db: Db, id: Text)
    requires id in db.outbox
  {
    var row := db.outbox[id];
    && ValidContent(row.c) && Known(env, row.orgId, id)
    && row.orgId != [] && InColumn(env, row.orgId) && InColumn(env, row.c.subjectId)
    && row.chainId in db.chains && db.chains[row.chainId].orgId == row.orgId
    && 1 <= row.seqNo <= db.chains[row.chainId].lastCaptured
    && (row.status.Sealed? <==> row.seqNo <= db.chains[row.chainId].lastSealed)
    && (row.status == Sealing ==> row.seqNo == db.chains[row.chainId].lastSealed + 1)
    && (row.status.Sealed? ==> row.status.eventId == env.derive(row.orgId, id))
    && (row.status.Sealed? ==> id in db.refs && db.refs[id] == env.derive(row.orgId, id))
  }

  ghost predicate Occupied(db: Db, chainId: Text, k: nat)
  {
    exists id :: id in db.outbox && db.outbox[id].chainId == chainId && db.outbox[id].seqNo == k
  }

  /** Chains hold each captured sequence number exactly once. */
  ghost predicate ChainsDense(db: Db)
  {
    && (forall ch | ch in db.chains :: db.chains[ch].lastSealed <= db.chains[ch].lastCaptured)
    && (forall ch, k: nat | ch in db.chains && 1 <= k <= db.chains[ch].lastCaptured :: Occupied(db, ch, k))
    && (forall i, j | i in db.outbox && j in db.outbox && db.outbox[i].chainId == db.outbox[j].chainId
          && db.outbox[i].seqNo == db.outbox[j].seqNo :: i == j)
  }

  /** The event carries the immutable content of the capture. */
  ghost predicate Records(f: EventFields, id: Text, row: Row)
  {
    && f.orgId == row.orgId && f.chainId == row.orgId + [COLON] + Key(Word(row.c.category))
    && f.eventType == row.c.eventType && f.eventVersion == row.c.eventVersion
    && f.subjectType == row.c.subjectType && f.subjectId == row.c.subjectId
    && f.occurredAt == row.c.occurredAt && f.payloadHash == row.c.payloadHash && f.payloadRef == None
    && f.keyId == row.c.keyId && f.keyVersion == row.c.keyVersion
    && f.evidence == Key(if row.c.evidence == Key("dev_signed") then "dev_signed" else "hmac_internal")
    && Carries(f.redaction, id, row)
    && ReadSealerCaptureId(f.redaction) == Some(id)
  }

  /** The derived event of a capture, if written, records it; a sealed capture's is written. */
  ghost predicate EventOk(env: Env, db: Db, id: Text)
    requires id in db.outbox
  {
    var row := db.outbox[id];
    var e := env.derive(row.orgId, id);
    && (e in db.events.table ==> Records(db.events.table[e].f, id, row) && row.status != Captured)
    && (row.status.Sealed? ==> e in db.events.table)
  }

  /** An event stamped with a capture is the derived event of a capture in the outbox. */
  ghost predicate StampOk(env: Env, db: Db, e: Text)
    requires e in db.events.table
  {
    var stamp := ReadSealerCaptureId(db.events.table[e].f.redaction);
    && (stamp.Some? ==> stamp.value in db.outbox && e == env.derive(db.outbox[stamp.value].orgId, stamp.value))
    && (forall o, c | Known(env, o, c) :: e == env.derive(o, c) ==>
          stamp == Some(c) && c in db.outbox && db.outbox[c].orgId == o)
  }

  ghost predicate DbInv(env: Env, db: Db)
  {
    && EventsValid(env.crypto, db.events)
    && ChainsDense(db)
    && (forall id | id in db.outbox :: RowOk(env, db, id) && EventOk(env, db, id))
    && (forall id | id in db.refs :: id in db.outbox && db.outbox[id].status.Sealed?)
    && (forall e | e in db.events.table :: StampOk(env, db, e))
  }

  /** What a worker remembers is still the stored capture, and that capture has left `captured`. */
  ghost predicate HeldOk(db: Db, cl: Claimed)
  {
    && cl.captureId in db.outbox
    && ClaimedOf(cl.captureId, db.outbox[cl.captureId]) == cl
    && db.outbox[cl.captureId].status != Captured
  }

  ghost predicate AppendedOk(env: Env, db: Db, cl: Claimed)
  {
    HeldOk(db, cl) && env.derive(cl.orgId, cl.captureId) in db.events.table
  }

  ghost predicate Inv(env: Env, s: State)
  {
    && DbInv(env, s.db)
    && (forall cl | cl in s.held :: HeldOk(s.db, cl))
    && (forall cl | cl in s.appended :: AppendedOk(env, s.db, cl))
  }

  // ---------------------------------------------------------------------------------------
  // What no step undoes
  // ---------------------------------------------------------------------------------------

  /** The only moves of a capture's status. */
  predicate StatusMove(a: Status, b: Status)
  {
    a == b || (a == Captured && !b.Captured?) || (a == Sealing && (b.Sealed? || b == Failed))
  }

  /** Captures keep their content, their place and their order of states; sealed marks only rise;
      written events stay as they are. */
  ghost predicate Evolves(db: Db, db': Db)
  {
    && (forall id | id in db.outbox :: id in db'.outbox
          && ClaimedOf(id, db'.outbox[id]) == ClaimedOf(id, db.outbox[id])
          && StatusMove(db.outbox[id].status, db'.outbox[id].status))
    && (forall ch | ch in db.chains :: ch in db'.chains
          && db'.chains[ch].orgId == db.chains[ch].orgId
          && db.chains[ch].lastCaptured <= db'.chains[ch].lastCaptured
          && db.chains[ch].lastSealed <= db'.chains[ch].lastSealed)
    && (forall e | e in db.events.table :: e in db'.events.table && db'.events.table[e] == db.events.table[e])
  }

  lemma HeldSurvives(env: Env, db: Db, db': Db, cl: Claimed)
    requires Evolves(db, db')
    ensures HeldOk(db, cl) ==> HeldOk(db', cl)
    ensures AppendedOk(env, db, cl) ==> AppendedOk(env, db', cl)
  {
  }

  lemma EvolvesTransitive(a: Db, b: Db, c: Db)
    requires Evolves(a, b) && Evolves(b, c)
    ensures Evolves(a, c)
  {
  }

  // ---------------------------------------------------------------------------------------
  // Each SQL function keeps the invariant
  // ---------------------------------------------------------------------------------------

  /** A stamp stays right as long as captures keep their org. */
  lemma StampFrame(env: Env, db: Db, db': Db, e: Text)
    requires e in db.events.table && StampOk(env, db, e) && db'.events == db.events
    requires forall id | id in db.outbox :: id in db'.outbox && db'.outbox[id].orgId == db.outbox[id].orgId
    ensures StampOk(env, db', e)
  {
  }

  lemma CaptureKeeps(env: Env, db: Db, session: Text, id: Text, orgId: Text, chainId: Text, c: Content)
    requires DbInv(env, db) && Admissible(env, Capture(session, id, orgId, chainId, c))
    requires InsertLocked(db, session, id, orgId, chainId, c).Some?
    ensures var db' := InsertLocked(db, session, id, orgId, chainId, c).value;
            DbInv(env, db') && Evolves(db, db')
  {
    hide EventsValid, ValidContent, RowOk, EventOk, StampOk, ChainsDense, Evolves, AdmittedContent;
    var db' := InsertLocked(db, session, id, orgId, chainId, c).value;
    if id in db.outbox {
      CaptureAgain(env, db, id);
      assert db' == db;
      EvolvesReflexive(db);
    } else {
      CaptureEvolves(db, session, id, orgId, chainId, c);
      CaptureDense(env, db, session, id, orgId, chainId, c);
      forall i | i in db'.outbox ensures RowOk(env, db', i) && EventOk(env, db', i) {
        CaptureRow(env, db, session, id, orgId, chainId, c, i);
      }
      forall e | e in db'.events.table ensures StampOk(env, db', e) { StampFrame(env, db, db', e); }
    }
  }

  lemma CaptureEvolves(db: Db, session: Text, id: Text, orgId: Text, chainId: Text, c: Content)
    requires InsertLocked(db, session, id, orgId, chainId, c).Some? && id !in db.outbox
    ensures Evolves(db, InsertLocked(db, session, id, orgId, chainId, c).value)
  {
    hide AdmittedContent;
  }

  lemma CaptureAgain(env: Env, db: Db, id: Text)
    requires id in db.outbox && RowOk(env, db, id)
    ensures db.outbox[id].chainId in db.chains
    ensures db.chains[db.outbox[id].chainId := db.chains[db.outbox[id].chainId]] == db.chains
  {
  }

  lemma CaptureRow(env: Env, db: Db, session: Text, id: Text, orgId: Text, chainId: Text, c: Content, i: Text)
    requires Admissible(env, Capture(session, id, orgId, chainId, c)) && id !in db.outbox
    requires InsertLocked(db, session, id, orgId, chainId, c).Some? && ChainsDense(db)
    requires forall e | e in db.events.table :: StampOk(env, db, e)
    requires i != id ==> i in db.outbox && RowOk(env, db, i) && EventOk(env, db, i)
    ensures var db' := InsertLocked(db, session, id, orgId, chainId, c).value;
            i in db'.outbox && RowOk(env, db', i) && EventOk(env, db', i)
  {
    hide AdmittedContent, Records, WellFormed, Plain;
    forall e | e in db.events.table ensures e != env.derive(orgId, id) {
      assert StampOk(env, db, e);
    }
  }

  lemma CaptureDense(env: Env, db: Db, session: Text, id: Text, orgId: Text, chainId: Text, c: Content)
    requires DbInv(env, db) && InsertLocked(db, session, id, orgId, chainId, c).Some? && id !in db.outbox
    ensures ChainsDense(InsertLocked(db, session, id, orgId, chainId, c).value)
  {
    hide EventsValid, EventOk, StampOk, ValidContent, AdmittedContent;
    var db' := InsertLocked(db, session, id, orgId, chainId, c).value;
    forall ch, k: nat | ch in db'.chains && 1 <= k <= db'.chains[ch].lastCaptured ensures Occupied(db', ch, k) {
      CapturedPlace(db, session, id, orgId, chainId, c, ch, k);
    }
    forall i | i in db.outbox ensures db.outbox[i].chainId in db.chains
      && db.outbox[i].seqNo <= db.chains[db.outbox[i].chainId].lastCaptured
    {
      assert RowOk(env, db, i);
    }
  }

  lemma CapturedPlace(db: Db, session: Text, id: Text, orgId: Text, chainId: Text, c: Content, ch: Text, k: nat)
    requires ChainsDense(db) && InsertLocked(db, session, id, orgId, chainId, c).Some? && id !in db.outbox
    requires var db' := InsertLocked(db, session, id, orgId, chainId, c).value;
             ch in db'.chains && 1 <= k <= db'.chains[ch].lastCaptured
    ensures Occupied(InsertLocked(db, session, id, orgId, chainId, c).value, ch, k)
  {
    hide AdmittedContent;
    var db' := InsertLocked(db, session, id, orgId, chainId, c).value;
    if ch == chainId && k == db'.chains[ch].lastCaptured {
      assert db'.outbox[id].chainId == ch && db'.outbox[id].seqNo == k;
    } else {
      assert Occupied(db, ch, k);
      var i :| i in db.outbox && db.outbox[i].chainId == ch && db.outbox[i].seqNo == k;
      assert i in db'.outbox && db'.outbox[i] == db.outbox[i];
    }
  }

  /** Changing one row's status keeps chains dense. */
  lemma StatusDense(db: Db, id: Text, st: Status)
    requires ChainsDense(db) && id in db.outbox
    ensures ChainsDense(SetStatus(db, id, st))
  {
    var db' := SetStatus(db, id, st);
    forall ch, k: nat | ch in db'.chains && 1 <= k <= db'.chains[ch].lastCaptured ensures Occupied(db', ch, k) {
      assert Occupied(db, ch, k);
      var i :| i in db.outbox && db.outbox[i].chainId == ch && db.outbox[i].seqNo == k;
      assert i in db'.outbox && db'.outbox[i].chainId == ch && db'.outbox[i].seqNo == k;
    }
  }

  predicate MayMove(db: Db, id: Text, st: Status)
    requires id in db.outbox
  {
    || (db.outbox[id].status == Captured && st == Sealing && IsNext(db, db.outbox[id].chainId, id))
    || ((db.outbox[id].status == Captured || db.outbox[id].status == Sealing) && st == Failed)
  }

  lemma StatusRow(env: Env, db: Db, id: Text, st: Status, i: Text)
    requires id in db.outbox && MayMove(db, id, st)
    requires i in db.outbox && RowOk(env, db, i) && EventOk(env, db, i)
    ensures RowOk(env, SetStatus(db, id, st), i) && EventOk(env, SetStatus(db, id, st), i)
  {
    hide ValidContent;
  }

  /** A captured row may start sealing if it is the next one; an unsealed row may fail. */
  lemma StatusKeeps(env: Env, db: Db, id: Text, st: Status)
    requires DbInv(env, db) && id in db.outbox && MayMove(db, id, st)
    ensures DbInv(env, SetStatus(db, id, st)) && Evolves(db, SetStatus(db, id, st))
  {
    hide EventsValid, RowOk, EventOk, StampOk, ChainsDense, ValidContent;
    var db' := SetStatus(db, id, st);
    StatusDense(db, id, st);
    forall i | i in db'.outbox ensures RowOk(env, db', i) && EventOk(env, db', i) {
      StatusRow(env, db, id, st, i);
    }
    forall e | e in db'.events.table ensures StampOk(env, db', e) { StampFrame(env, db, db', e); }
  }

  /** What a first mark_sealed changes. */
  function MarkedDb(db: Db, id: Text, eid: Text): Db
    requires id in db.outbox && db.outbox[id].chainId in db.chains
  {
    var row := db.outbox[id];
    SetStatus(db, id, Sealed(eid)).(
      refs := db.refs[id := eid],
      chains := db.chains[row.chainId := db.chains[row.chainId].(lastSealed := row.seqNo)])
  }

  lemma MarkEffect(db: Db, session: Text, orgId: Text, id: Text, eid: Text)
    requires MarkSealed(db, session, orgId, id, eid).Some?
    ensures id in db.outbox
    ensures var db' := MarkSealed(db, session, orgId, id, eid).value;
            if db.outbox[id].status.Sealed? then db' == db
            else db.outbox[id].status == Sealing && IsNext(db, db.outbox[id].chainId, id)
                 && db' == MarkedDb(db, id, eid)
  {
  }

  lemma MarkRow(env: Env, db: Db, id: Text, i: Text)
    requires id in db.outbox && db.outbox[id].status == Sealing && IsNext(db, db.outbox[id].chainId, id)
    requires env.derive(db.outbox[id].orgId, id) in db.events.table
    requires i in db.outbox && RowOk(env, db, i) && EventOk(env, db, i)
    requires i != id ==> db.outbox[i].chainId != db.outbox[id].chainId || db.outbox[i].seqNo != db.outbox[id].seqNo
    ensures var db' := MarkedDb(db, id, env.derive(db.outbox[id].orgId, id));
            RowOk(env, db', i) && EventOk(env, db', i)
  {
    MarkEvent(env, db, id, i);
    hide ValidContent, EventOk;
  }

  lemma MarkEvent(env: Env, db: Db, id: Text, i: Text)
    requires id in db.outbox && db.outbox[id].chainId in db.chains
    requires env.derive(db.outbox[id].orgId, id) in db.events.table
    requires i in db.outbox && EventOk(env, db, i)
    ensures EventOk(env, MarkedDb(db, id, env.derive(db.outbox[id].orgId, id)), i)
  {
    hide Records;
    var row := db.outbox[i];
    var e := env.derive(row.orgId, i);
    if e in db.events.table { SameRecords(db.events.table[e].f, i, row, Sealed(e)); }
  }

  /** Whether an event records a capture does not depend on the capture's status. */
  lemma SameRecords(f: EventFields, id: Text, row: Row, status: Status)
    ensures Records(f, id, row.(status := status)) <==> Records(f, id, row)
  {
    hide Key, Word, Decimal, Find;
  }

  lemma MarkedKeeps(env: Env, db: Db, id: Text)
    requires DbInv(env, db) && id in db.outbox
    requires db.outbox[id].status == Sealing && IsNext(db, db.outbox[id].chainId, id)
    requires env.derive(db.outbox[id].orgId, id) in db.events.table && db.outbox[id].chainId in db.chains
    ensures DbInv(env, MarkedDb(db, id, env.derive(db.outbox[id].orgId, id)))
  {
    hide EventsValid, RowOk, EventOk, StampOk, ChainsDense, ValidContent;
    var row := db.outbox[id];
    var eid := env.derive(row.orgId, id);
    var db' := MarkedDb(db, id, eid);
    NextCaptured(env, db, id);
    StatusDense(db, id, Sealed(eid));
    MarkDense(SetStatus(db, id, Sealed(eid)), db', row.chainId);
    forall i | i in db'.outbox ensures RowOk(env, db', i) && EventOk(env, db', i) {
      SamePlaceSameRow(db, i, id);
      MarkRow(env, db, id, i);
    }
    forall e | e in db'.events.table ensures StampOk(env, db', e) { StampFrame(env, db, db', e); }
  }

  lemma MarkedEvolves(db: Db, id: Text, eid: Text)
    requires id in db.outbox && db.outbox[id].status == Sealing && db.outbox[id].chainId in db.chains
    requires IsNext(db, db.outbox[id].chainId, id)
    ensures Evolves(db, MarkedDb(db, id, eid))
  {
  }

  /** mark_sealed under the derived id, once the derived event is written, seals the next row. */
  lemma MarkKeeps(env: Env, db: Db, session: Text, cl: Claimed)
    requires DbInv(env, db) && AppendedOk(env, db, cl)
    requires MarkSealed(db, session, cl.orgId, cl.captureId, env.derive(cl.orgId, cl.captureId)).Some?
    ensures var db' := MarkSealed(db, session, cl.orgId, cl.captureId, env.derive(cl.orgId, cl.captureId)).value;
            DbInv(env, db') && Evolves(db, db')
  {
    hide EventsValid, RowOk, EventOk, StampOk, ChainsDense, MarkSealed, ValidContent;
    var id, eid := cl.captureId, env.derive(cl.orgId, cl.captureId);
    MarkEffect(db, session, cl.orgId, id, eid);
    if !db.outbox[id].status.Sealed? {
      MarkedKeeps(env, db, id);
      MarkedEvolves(db, id, eid);
    }
  }

  lemma NextCaptured(env: Env, db: Db, id: Text)
    requires id in db.outbox && RowOk(env, db, id)
    ensures db.outbox[id].chainId in db.chains && db.outbox[id].seqNo <= db.chains[db.outbox[id].chainId].lastCaptured
  {
  }

  lemma SamePlaceSameRow(db: Db, i: Text, j: Text)
    requires ChainsDense(db) && i in db.outbox && j in db.outbox
    ensures db.outbox[i].chainId == db.outbox[j].chainId && db.outbox[i].seqNo == db.outbox[j].seqNo ==> i == j
  {
  }

  lemma MarkDense(db: Db, db': Db, chainId: Text)
    requires ChainsDense(db) && chainId in db.chains && db'.outbox == db.outbox
    requires db.chains[chainId].lastSealed + 1 <= db.chains[chainId].lastCaptured
    requires db'.chains == db.chains[chainId := db.chains[chainId].(lastSealed := db.chains[chainId].lastSealed + 1)]
    ensures ChainsDense(db')
  {
    forall ch, k: nat | ch in db'.chains && 1 <= k <= db'.chains[ch].lastCaptured ensures Occupied(db', ch, k) {
      assert Occupied(db, ch, k);
    }
  }

  // ---------------------------------------------------------------------------------------
  // Appends keep the invariant
  // ---------------------------------------------------------------------------------------

  /** Two rebuilds of one capture differ only in the worker's name and the clock, neither of which
      is compared: an event that records the capture is accepted. */
  lemma RebuiltEventMatches(env: Env, cl: Claimed, f: EventFields, row: Row, worker: Option<Text>, sealedAt: Text)
    requires Records(f, cl.captureId, row) && ClaimedOf(cl.captureId, row) == cl
    requires Build(env, cl, worker, sealedAt).Some?
    ensures FirstDivergence(Build(env, cl, worker, sealedAt).value, f) == None
  {
    RecordedChain(f, cl.captureId, row);
    hide MergedRedaction, AuditChainId, ReadSealerCaptureId, Key, HasBannedKey, Carries;
    BuiltStamp(cl, worker, sealedAt);
  }

  lemma RecordedChain(f: EventFields, id: Text, row: Row)
    requires Records(f, id, row)
    ensures f.chainId == AuditChainId(row.orgId, row.c.category)
  {
    hide CategoryText, Word, Key, Carries;
    CategoryWord(row.c.category);
  }

  /** A rebuilt sealing event is never rejected as divergent, whoever rebuilds it and whenever. */
  lemma NeverDivergent(env: Env, db: Db, session: Text, cl: Claimed, worker: Option<Text>, sealedAt: Text)
    requires GoodEnv(env) && DbInv(env, db) && HeldOk(db, cl)
    ensures var a := AppendPhaseOf(env, db.events, session, cl, worker, sealedAt);
            a.AppendFailed? ==> !a.error.Divergent?
  {
    hide Build, EventsValid, Indexed, Canonical, EventJson, FirstDivergence, RowOk, StampOk, ChainsDense, Records,
         IsUuid, Stored, Storable, NewFields;
    EventsIndexed(env.crypto, db.events);
    var input := Build(env, cl, worker, sealedAt);
    if input.Some? {
      BuiltId(env, cl, worker, sealedAt);
      var e := env.derive(cl.orgId, cl.captureId);
      if e in db.events.table {
        assert EventOk(env, db, cl.captureId);
        RebuiltEventMatches(env, cl, db.events.table[e].f, db.outbox[cl.captureId], worker, sealedAt);
      }
    }
  }

  lemma BuiltId(env: Env, cl: Claimed, worker: Option<Text>, sealedAt: Text)
    requires Build(env, cl, worker, sealedAt).Some?
    ensures var input := Build(env, cl, worker, sealedAt).value;
            input.eventId == Some(env.derive(cl.orgId, cl.captureId)) && input.orgId == cl.orgId
  {
  }

  /** The event written for a capture records it. */
  lemma BuiltRecords(env: Env, ev: Events, cl: Claimed, row: Row, worker: Option<Text>, sealedAt: Text)
    requires Indexed(ev) && ClaimedOf(cl.captureId, row) == cl && Build(env, cl, worker, sealedAt).Some?
    ensures Records(NewFields(ev, Build(env, cl, worker, sealedAt).value, env.derive(cl.orgId, cl.captureId), []),
                    cl.captureId, row)
  {
    hide MergedRedaction, ReadSealerCaptureId, Key, HasBannedKey, ChainRows, Indexed, CategoryText, Word, Carries;
    CategoryWord(row.c.category);
    MergedCarries(cl, row, worker, sealedAt);
    BuiltStamp(cl, worker, sealedAt);
  }

  /** What an append phase does to the table: nothing, or one more event, that of the capture. */
  lemma AppendPhaseEffect(env: Env, db: Db, session: Text, cl: Claimed, worker: Option<Text>, sealedAt: Text)
    requires GoodEnv(env) && DbInv(env, db) && HeldOk(db, cl)
    requires AppendPhaseOf(env, db.events, session, cl, worker, sealedAt).AppendDone?
    ensures var a := AppendPhaseOf(env, db.events, session, cl, worker, sealedAt);
            var e := env.derive(cl.orgId, cl.captureId);
            && a.eventId == e && EventsValid(env.crypto, a.events)
            && e in a.events.table && Records(a.events.table[e].f, cl.captureId, db.outbox[cl.captureId])
            && (a.events.table == db.events.table
                || (e !in db.events.table && a.events.table == db.events.table[e := a.events.table[e]]))
  {
    hide Build, EventsValid, Indexed, Canonical, EventJson, FirstDivergence, RowOk, StampOk, ChainsDense, Records,
         IsUuid, AfterAppend, NewFields, ChainRows, Stored, Storable;
    EventsIndexed(env.crypto, db.events);
    var input := Build(env, cl, worker, sealedAt).value;
    BuiltId(env, cl, worker, sealedAt);
    AppendKeepsChains(env.crypto, db.events, Some(session), input, [], []);
    OutcomeRow(env.crypto, db.events, Some(session), input, [], []);
    BuiltRecords(env, db.events, cl, db.outbox[cl.captureId], worker, sealedAt);
    BuiltStored(env, db, cl, worker, sealedAt);
    assert EventOk(env, db, cl.captureId);
    var e := env.derive(cl.orgId, cl.captureId);
    if e in db.events.table { EventIdIs(db.events, e); }
    NewFieldsId(db.events, input, e);
  }

  /** The ids of a sealing event are spelled as their columns read them. */
  lemma BuiltStored(env: Env, db: Db, cl: Claimed, worker: Option<Text>, sealedAt: Text)
    requires GoodEnv(env) && DbInv(env, db) && HeldOk(db, cl) && Indexed(db.events)
    requires Build(env, cl, worker, sealedAt).Some?
    ensures var f := NewFields(db.events, Build(env, cl, worker, sealedAt).value,
                               env.derive(cl.orgId, cl.captureId), []);
            Stored(env.crypto, f) == Some(f)
  {
    hide EventsValid, EventOk, StampOk, ChainsDense, ValidContent, MergedRedaction, HasBannedKey, AuditChainId,
         VisibleHead, ChainRows, Indexed, EvidenceText, IsUuid, Key;
    assert RowOk(env, db, cl.captureId);
  }

  lemma EventIdIs(ev: Events, e: Text)
    requires Indexed(ev) && e in ev.table
    ensures ev.table[e].f.id == e
  {
    assert HasPlace(ev, e);
  }

  lemma NewFieldsId(ev: Events, input: AppendInput, e: Text)
    requires Indexed(ev)
    ensures NewFields(ev, input, e, []).id == e
  {
  }

  /** Adding events keeps the invariant when the new ones are right about captures. */
  lemma EventsFrame(env: Env, db: Db, ev: Events)
    requires DbInv(env, db) && EventsValid(env.crypto, ev)
    requires forall e | e in db.events.table :: e in ev.table && ev.table[e] == db.events.table[e]
    requires forall e | e in ev.table && e !in db.events.table :: StampOk(env, db.(events := ev), e)
    requires forall id | id in db.outbox && env.derive(db.outbox[id].orgId, id) in ev.table
               && env.derive(db.outbox[id].orgId, id) !in db.events.table ::
               Records(ev.table[env.derive(db.outbox[id].orgId, id)].f, id, db.outbox[id])
               && db.outbox[id].status != Captured
    ensures DbInv(env, db.(events := ev)) && Evolves(db, db.(events := ev))
  {
    hide EventsValid, Records, RowOk, EventOk, StampOk, ChainsDense;
    var db' := db.(events := ev);
    DenseIgnoresEvents(db, ev);
    forall id | id in db'.outbox ensures RowOk(env, db', id) && EventOk(env, db', id) { EventsRow(env, db, ev, id); }
    forall e | e in db'.events.table ensures StampOk(env, db', e) {
      if e in db.events.table { EventsStamp(env, db, ev, e); }
    }
  }

  lemma EventsRow(env: Env, db: Db, ev: Events, id: Text)
    requires id in db.outbox && RowOk(env, db, id) && EventOk(env, db, id)
    requires var e := env.derive(db.outbox[id].orgId, id);
             if e in db.events.table then e in ev.table && ev.table[e] == db.events.table[e]
             else e in ev.table ==> Records(ev.table[e].f, id, db.outbox[id]) && db.outbox[id].status != Captured
    ensures RowOk(env, db.(events := ev), id) && EventOk(env, db.(events := ev), id)
  {
    hide Records, ValidContent;
  }

  lemma EventsStamp(env: Env, db: Db, ev: Events, e: Text)
    requires e in db.events.table && StampOk(env, db, e) && e in ev.table && ev.table[e] == db.events.table[e]
    ensures StampOk(env, db.(events := ev), e)
  {
    hide ReadSealerCaptureId;
  }

  lemma DenseIgnoresEvents(db: Db, ev: Events)
    requires ChainsDense(db)
    ensures ChainsDense(db.(events := ev))
  {
    var db' := db.(events := ev);
    forall ch, k: nat | ch in db'.chains && 1 <= k <= db'.chains[ch].lastCaptured ensures Occupied(db', ch, k) {
      assert Occupied(db, ch, k);
    }
  }

  lemma AppendPhaseKeeps(env: Env, db: Db, session: Text, cl: Claimed, worker: Option<Text>, sealedAt: Text)
    requires GoodEnv(env) && DbInv(env, db) && HeldOk(db, cl)
    requires AppendPhaseOf(env, db.events, session, cl, worker, sealedAt).AppendDone?
    ensures var a := AppendPhaseOf(env, db.events, session, cl, worker, sealedAt);
            var db' := db.(events := a.events);
            && DbInv(env, db') && Evolves(db, db')
            && AppendedOk(env, db', cl) && a.eventId == env.derive(cl.orgId, cl.captureId)
  {
    hide AppendPhaseOf, EventsValid, Indexed, RowOk, StampOk, EventOk, ChainsDense, Records;
    EventsIndexed(env.crypto, db.events);
    var a := AppendPhaseOf(env, db.events, session, cl, worker, sealedAt);
    var e := env.derive(cl.orgId, cl.captureId);
    RowsKnown(env, db);
    AppendPhaseEffect(env, db, session, cl, worker, sealedAt);
    if e in a.events.table && e !in db.events.table {
      NewStamp(env, db.(events := a.events), cl);
    }
    EventsFrame(env, db, a.events);
  }

  lemma RowsKnown(env: Env, db: Db)
    requires DbInv(env, db)
    ensures forall id | id in db.outbox :: Known(env, db.outbox[id].orgId, id)
  {
    hide EventsValid, EventOk, StampOk, ChainsDense;
    forall id | id in db.outbox ensures Known(env, db.outbox[id].orgId, id) { assert RowOk(env, db, id); }
  }

  lemma NewStamp(env: Env, db: Db, cl: Claimed)
    requires GoodEnv(env) && HeldOk(db, cl) && Known(env, cl.orgId, cl.captureId)
    requires env.derive(cl.orgId, cl.captureId) in db.events.table
    requires Records(db.events.table[env.derive(cl.orgId, cl.captureId)].f, cl.captureId, db.outbox[cl.captureId])
    ensures StampOk(env, db, env.derive(cl.orgId, cl.captureId))
  {
    hide AuditChainId, EvidenceText, ReadSealerCaptureId, Key;
  }

  lemma ForeignKeeps(env: Env, db: Db, session: Text, input: AppendInput, freshId: Text, payloadId: Text)
    requires DbInv(env, db) && Admissible(env, ForeignAppend(session, input, freshId, payloadId)) && Indexed(db.events)
    ensures var ev := AfterAppend(db.events, Append(env.crypto, db.events, Some(session), input, freshId, payloadId));
            DbInv(env, db.(events := ev)) && Evolves(db, db.(events := ev))
  {
    hide EventsValid, Indexed, Canonical, EventJson, FirstDivergence, RowOk, EventOk, ChainsDense, Records, IsUuid,
         ChainRows, ReadSealerCaptureId, StampOk, NewFields, NumberTaken, Stored;
    var r := Append(env.crypto, db.events, Some(session), input, freshId, payloadId);
    AppendKeepsChains(env.crypto, db.events, Some(session), input, freshId, payloadId);
    var ev := AfterAppend(db.events, r);
    if r.Appended? {
      NewFieldsAre(db.events, input, ChosenId(input, freshId), payloadId);
      assert Some(r.row.f.id) == env.crypto.uuid(ChosenId(input, freshId)) && r.row.f.redaction == input.redaction;
      UnstampedOk(env, db.(events := ev), r.row.f.id);
    }
    RowsKnown(env, db);
    EventsFrame(env, db, ev);
  }

  lemma UnstampedOk(env: Env, db: Db, e: Text)
    requires e in db.events.table && ReadSealerCaptureId(db.events.table[e].f.redaction).None?
    requires forall o, c | Known(env, o, c) :: env.derive(o, c) != e
    ensures StampOk(env, db, e)
  {
  }

  // ---------------------------------------------------------------------------------------
  // Every step keeps the invariant
  // ---------------------------------------------------------------------------------------

  lemma InvIndexed(env: Env, s: State)
    requires Inv(env, s)
    ensures Indexed(s.db.events)
  {
    EventsIndexed(env.crypto, s.db.events);
  }

  /** A database that evolves under the same memories keeps the invariant. */
  lemma InvMoves(env: Env, s: State, db: Db)
    requires Inv(env, s) && DbInv(env, db) && Evolves(s.db, db)
    ensures Inv(env, s.(db := db))
  {
    hide DbInv, Evolves, HeldOk, AppendedOk;
    forall cl | cl in s.held ensures HeldOk(db, cl) { HeldSurvives(env, s.db, db, cl); }
    forall cl | cl in s.appended ensures AppendedOk(env, db, cl) { HeldSurvives(env, s.db, db, cl); }
  }

  lemma EvolvesReflexive(db: Db)
    ensures Evolves(db, db)
  {
  }

  /** Claiming: the claimed row is the next one, and is now remembered. */
  lemma ClaimKeeps(env: Env, db: Db, chainId: Text, id: Text)
    requires DbInv(env, db) && Claimable(db, chainId, id)
    ensures var db' := SetStatus(db, id, Sealing);
            DbInv(env, db') && Evolves(db, db') && HeldOk(db', ClaimedOf(id, db.outbox[id]))
  {
    hide DbInv, Evolves;
    StatusKeeps(env, db, id, Sealing);
  }

  /** The one-transaction seal is its three phases in a row. */
  lemma SealOnceKeeps(env: Env, db: Db, session: Text, orgId: Text, chainId: Text, worker: Option<Text>, sealedAt: Text)
    requires GoodEnv(env) && DbInv(env, db) && Indexed(db.events)
    ensures var r := SealOnce(env, db, session, orgId, chainId, worker, sealedAt);
            DbInv(env, r.0) && Evolves(db, r.0)
  {
    hide DbInv, Evolves, AppendPhaseOf, MarkSealed, HeldOk, AppendedOk, GoodEnv, Indexed;
    EvolvesReflexive(db);
    var c := ClaimForSeal(db, session, orgId, chainId);
    if c.ClaimedRow? {
      var cl := ClaimedOf(c.id, db.outbox[c.id]);
      var d1 := SetStatus(db, c.id, Sealing);
      ClaimKeeps(env, db, chainId, c.id);
      var a := AppendPhaseOf(env, db.events, session, cl, worker, sealedAt);
      if a.AppendDone? {
        AppendPhaseKeeps(env, d1, session, cl, worker, sealedAt);
        var d2 := d1.(events := a.events);
        EvolvesTransitive(db, d1, d2);
        var m := MarkSealed(d2, session, cl.orgId, cl.captureId, a.eventId);
        if m.Some? {
          MarkKeeps(env, d2, session, cl);
          EvolvesTransitive(db, d2, m.value);
        }
      }
    }
  }

  lemma RecoverOnceKeeps(env: Env, db: Db, session: Text, cl: Claimed, worker: Option<Text>, sealedAt: Text)
    requires GoodEnv(env) && DbInv(env, db) && Indexed(db.events) && HeldOk(db, cl)
    ensures var r := RecoverOnce(env, db, session, cl, worker, sealedAt);
            DbInv(env, r.0) && Evolves(db, r.0)
  {
    hide DbInv, Evolves, AppendPhaseOf, MarkSealed, HeldOk, AppendedOk, GoodEnv, Indexed;
    EvolvesReflexive(db);
    var a := AppendPhaseOf(env, db.events, session, cl, worker, sealedAt);
    if a.AppendDone? {
      AppendPhaseKeeps(env, db, session, cl, worker, sealedAt);
      var d2 := db.(events := a.events);
      var m := MarkSealed(d2, session, cl.orgId, cl.captureId, a.eventId);
      if m.Some? {
        MarkKeeps(env, d2, session, cl);
        EvolvesTransitive(db, d2, m.value);
      }
    }
  }

  /** Every committed step keeps the invariant and only moves the database forward. */
  lemma StepKeeps(env: Env, s: State, step: Step)
    requires GoodEnv(env) && Inv(env, s) && Admissible(env, step) && Indexed(s.db.events)
    ensures Inv(env, Next(env, s, step)) && Evolves(s.db, Next(env, s, step).db)
  {
    hide DbInv, Evolves, Indexed, GoodEnv, SealOnce, RecoverOnce, SetStatus, Append, AppendPhaseOf, InsertLocked,
         ClaimForSeal, LoadSealing, MarkSealed;
    EvolvesReflexive(s.db);
    match step
    case Capture(session, id, orgId, chainId, c) => CaptureStep(env, s, step);
    case Claim(session, orgId, chainId) => ClaimStep(env, s, step);
    case Load(session, orgId, id) => LoadStep(env, s, step);
    case AppendHeld(session, cl, worker, sealedAt) => AppendStep(env, s, step);
    case MarkAppended(session, cl) => MarkStep(env, s, step);
    case SealNext(session, orgId, chainId, worker, sealedAt) =>
      SealOnceKeeps(env, s.db, session, orgId, chainId, worker, sealedAt);
      InvMoves(env, s, SealOnce(env, s.db, session, orgId, chainId, worker, sealedAt).0);
    case RecoverHeld(session, cl, worker, sealedAt) =>
      hide HeldOk;
      if cl in s.held {
        RecoverOnceKeeps(env, s.db, session, cl, worker, sealedAt);
        InvMoves(env, s, RecoverOnce(env, s.db, session, cl, worker, sealedAt).0);
      }
    case Fail(session, orgId, id) =>
      if MarkFailed(s.db, session, orgId, id).Some? {
        StatusKeeps(env, s.db, id, Failed);
        InvMoves(env, s, SetStatus(s.db, id, Failed));
      }
    case ForeignAppend(session, input, freshId, payloadId) =>
      hide Admissible;
      ForeignKeeps(env, s.db, session, input, freshId, payloadId);
      InvMoves(env, s, s.db.(events :=
        AfterAppend(s.db.events, Append(env.crypto, s.db.events, Some(session), input, freshId, payloadId))));
  }

  lemma CaptureStep(env: Env, s: State, step: Step)
    requires Inv(env, s) && Admissible(env, step) && Indexed(s.db.events) && step.Capture?
    ensures Inv(env, Next(env, s, step)) && Evolves(s.db, Next(env, s, step).db)
  {
    hide DbInv, Evolves, InsertLocked, Indexed;
    EvolvesReflexive(s.db);
    var r := InsertLocked(s.db, step.session, step.id, step.orgId, step.chainId, step.c);
    if r.Some? {
      CaptureKeeps(env, s.db, step.session, step.id, step.orgId, step.chainId, step.c);
      InvMoves(env, s, r.value);
    }
  }

  lemma ClaimStep(env: Env, s: State, step: Step)
    requires Inv(env, s) && Indexed(s.db.events) && step.Claim?
    ensures Inv(env, Next(env, s, step)) && Evolves(s.db, Next(env, s, step).db)
  {
    hide DbInv, Evolves, Indexed, ClaimForSeal, SetStatus, HeldOk, AppendedOk;
    EvolvesReflexive(s.db);
    var r := ClaimForSeal(s.db, step.session, step.orgId, step.chainId);
    if r.ClaimedRow? {
      ClaimKeeps(env, s.db, step.chainId, r.id);
      InvMoves(env, s, SetStatus(s.db, r.id, Sealing));
    }
  }

  lemma LoadStep(env: Env, s: State, step: Step)
    requires Inv(env, s) && Indexed(s.db.events) && step.Load?
    ensures Inv(env, Next(env, s, step)) && Evolves(s.db, Next(env, s, step).db)
  {
    hide DbInv, Evolves, Indexed;
    EvolvesReflexive(s.db);
  }

  lemma AppendStep(env: Env, s: State, step: Step)
    requires GoodEnv(env) && Inv(env, s) && Indexed(s.db.events) && step.AppendHeld?
    ensures Inv(env, Next(env, s, step)) && Evolves(s.db, Next(env, s, step).db)
  {
    hide DbInv, Evolves, Indexed, GoodEnv, AppendPhaseOf, HeldOk, AppendedOk;
    EvolvesReflexive(s.db);
    if step.cl in s.held {
      var a := AppendPhaseOf(env, s.db.events, step.session, step.cl, step.worker, step.sealedAt);
      if a.AppendDone? {
        AppendPhaseKeeps(env, s.db, step.session, step.cl, step.worker, step.sealedAt);
        InvMoves(env, s, s.db.(events := a.events));
      }
    }
  }

  lemma MarkStep(env: Env, s: State, step: Step)
    requires Inv(env, s) && Indexed(s.db.events) && step.MarkAppended?
    ensures Inv(env, Next(env, s, step)) && Evolves(s.db, Next(env, s, step).db)
  {
    hide DbInv, Evolves, Indexed, MarkSealed, HeldOk, AppendedOk;
    EvolvesReflexive(s.db);
    var cl := step.cl;
    if cl in s.appended {
      var r := MarkSealed(s.db, step.session, cl.orgId, cl.captureId, env.derive(cl.orgId, cl.captureId));
      if r.Some? {
        MarkKeeps(env, s.db, step.session, cl);
        InvMoves(env, s, r.value);
      }
    }
  }

  // ---------------------------------------------------------------------------------------
  // Runs
  // ---------------------------------------------------------------------------------------

  ghost predicate AllAdmissible(env: Env, run: seq<Step>)
  {
    forall i | 0 <= i < |run| :: Admissible(env, run[i])
  }

  /** The state after a run from `s`. */
  ghost function Run(env: Env, s: State, run: seq<Step>): (r: State)
    requires GoodEnv(env) && Inv(env, s) && AllAdmissible(env, run)
    ensures Inv(env, r) && Evolves(s.db, r.db)
    decreases |run|
  {
    EvolvesReflexive(s.db);
    if |run| == 0 then s
    else
      var prefix := run[..|run| - 1];
      var t := Run(env, s, prefix);
      var u := (InvIndexed(env, t); Next(env, t, run[|run| - 1]));
      StepKeeps(env, t, run[|run| - 1]);
      EvolvesTransitive(s.db, t.db, u.db);
      u
  }

  lemma InitialInv(env: Env)
    ensures Inv(env, INITIAL)
  {
  }

  /** The state a run from an empty database reaches. */
  ghost function Reached(env: Env, run: seq<Step>): (r: State)
    requires GoodEnv(env) && AllAdmissible(env, run)
    ensures Inv(env, r)
  {
    InitialInv(env);
    Run(env, INITIAL, run)
  }

  /** A run's last step is taken from where its other steps lead. */
  lemma ReachedSnoc(env: Env, run: seq<Step>)
    requires GoodEnv(env) && AllAdmissible(env, run) && |run| > 0
    ensures var prefix, step := run[..|run| - 1], run[|run| - 1];
            && AllAdmissible(env, prefix) && Admissible(env, step)
            && var t := Reached(env, prefix);
            && Inv(env, t) && Indexed(t.db.events) && Reached(env, run) == Next(env, t, step)
            && Evolves(t.db, Reached(env, run).db)
  {
    hide Next, GoodEnv, Admissible, Inv, Evolves, Indexed;
    var prefix := run[..|run| - 1];
    InvIndexed(env, Reached(env, prefix));
    StepKeeps(env, Reached(env, prefix), run[|run| - 1]);
  }

  ghost predicate SealedAt(db: Db, chainId: Text, k: nat)
  {
    exists id ::
      id in db.outbox && db.outbox[id].chainId == chainId && db.outbox[id].seqNo == k && db.outbox[id].status.Sealed?
  }

  predicate SealingIn(db: Db, chainId: Text, id: Text)
  {
    id in db.outbox && db.outbox[id].chainId == chainId && db.outbox[id].status == Sealing
  }

  ghost predicate PrefixSealed(db: Db, chainId: Text)
    requires chainId in db.chains
  {
    var mark := db.chains[chainId].lastSealed;
    && (forall id | id in db.outbox && db.outbox[id].chainId == chainId ::
          db.outbox[id].status.Sealed? <==> db.outbox[id].seqNo <= mark)
    && (forall k: nat | 1 <= k <= mark :: SealedAt(db, chainId, k))
    && (forall id | SealingIn(db, chainId, id) :: db.outbox[id].seqNo == mark + 1)
    && (forall i, j | SealingIn(db, chainId, i) && SealingIn(db, chainId, j) :: i == j)
  }

  lemma InvPrefixSealed(env: Env, db: Db, chainId: Text)
    requires DbInv(env, db) && chainId in db.chains
    ensures PrefixSealed(db, chainId)
  {
    hide EventsValid, EventOk, StampOk, Records, ValidContent, RowOk, Occupied, SealedAt;
    var mark := db.chains[chainId].lastSealed;
    forall id | id in db.outbox && db.outbox[id].chainId == chainId
      ensures db.outbox[id].status.Sealed? <==> db.outbox[id].seqNo <= mark
      ensures db.outbox[id].status == Sealing ==> db.outbox[id].seqNo == mark + 1
    {
      StatusPlace(env, db, id);
    }
    forall k: nat | 1 <= k <= mark ensures SealedAt(db, chainId, k) {
      assert Occupied(db, chainId, k);
      OccupiedIsSealed(db, chainId, k);
    }
  }

  lemma StatusPlace(env: Env, db: Db, id: Text)
    requires id in db.outbox && RowOk(env, db, id)
    ensures var mark := db.chains[db.outbox[id].chainId].lastSealed;
            && (db.outbox[id].status.Sealed? <==> db.outbox[id].seqNo <= mark)
            && (db.outbox[id].status == Sealing ==> db.outbox[id].seqNo == mark + 1)
  {
    hide ValidContent;
  }

  lemma OccupiedIsSealed(db: Db, chainId: Text, k: nat)
    requires Occupied(db, chainId, k)
    requires forall id | id in db.outbox && db.outbox[id].chainId == chainId && db.outbox[id].seqNo == k ::
               db.outbox[id].status.Sealed?
    ensures SealedAt(db, chainId, k)
  {
  }

  /** In every interleaving: the sealed rows of a chain are exactly its sequence numbers up to the
      sealed mark, each of them present, and a row being sealed is the next one, so there is at
      most one. */
  lemma SealedPrefix(env: Env, run: seq<Step>, chainId: Text)
    requires GoodEnv(env) && AllAdmissible(env, run) && chainId in Reached(env, run).db.chains
    ensures PrefixSealed(Reached(env, run).db, chainId)
  {
    hide Run, DbInv, PrefixSealed, AllAdmissible, GoodEnv;
    InvPrefixSealed(env, Reached(env, run).db, chainId);
  }

  /** In every interleaving each sealed capture has exactly one audit event stamped with it, and
      that event carries its derived id and its content; no unsealed `captured` row has one. */
  lemma OneEventPerSealedCapture(env: Env, run: seq<Step>, id: Text)
    requires GoodEnv(env) && AllAdmissible(env, run) && id in Reached(env, run).db.outbox
    ensures var db := Reached(env, run).db;
            var row := db.outbox[id];
            var e := env.derive(row.orgId, id);
            && (row.status.Sealed? ==> e in db.events.table && Records(db.events.table[e].f, id, row))
            && (row.status == Captured ==> e !in db.events.table)
            && (forall x | x in db.events.table && ReadSealerCaptureId(db.events.table[x].f.redaction) == Some(id) ::
                  x == e)
  {
    var db := Reached(env, run).db;
    hide Run, EventsValid, Records, ValidContent, ChainsDense;
    assert EventOk(env, db, id);
    forall x | x in db.events.table && ReadSealerCaptureId(db.events.table[x].f.redaction) == Some(id)
      ensures x == env.derive(db.outbox[id].orgId, id)
    {
      assert StampOk(env, db, x);
    }
  }

  /** In every interleaving every audit chain passes full verification. */
  lemma ReachedChainsVerify(env: Env, run: seq<Step>, chain: Text)
    requires GoodEnv(env) && AllAdmissible(env, run)
    ensures Indexed(Reached(env, run).db.events)
    ensures ChainValid(env.crypto, ChainRows(Reached(env, run).db.events, chain))
  {
    hide Run;
    InvIndexed(env, Reached(env, run));
    NoRowsValid(env.crypto, Reached(env, run).db.events, chain);
  }

  lemma StaysFailed(env: Env, db: Db, db': Db, id: Text, later: Text)
    requires DbInv(env, db') && Evolves(db, db')
    requires id in db.outbox && db.outbox[id].status == Failed
    requires later in db'.outbox && db'.outbox[later].chainId == db.outbox[id].chainId
    requires db'.outbox[later].seqNo >= db.outbox[id].seqNo
    ensures id in db'.outbox && db'.outbox[id].status == Failed
    ensures db.outbox[id].chainId in db'.chains
    ensures db'.chains[db.outbox[id].chainId].lastSealed < db.outbox[id].seqNo
    ensures !db'.outbox[later].status.Sealed?
  {
    hide EventsValid, EventOk, StampOk, Records, ValidContent, ChainsDense;
    assert ClaimedOf(id, db'.outbox[id]) == ClaimedOf(id, db.outbox[id]);
    assert RowOk(env, db', id) && RowOk(env, db', later);
  }

  /** Once a capture has failed, it and every later capture of its chain stay unsealed in every
      continuation: the chain is stalled. */
  lemma FailureStallsChain(env: Env, s: State, run: seq<Step>, id: Text, later: Text)
    requires GoodEnv(env) && Inv(env, s) && AllAdmissible(env, run)
    requires id in s.db.outbox && s.db.outbox[id].status == Failed
    requires var t := Run(env, s, run).db;
             later in t.outbox && t.outbox[later].chainId == s.db.outbox[id].chainId
             && t.outbox[later].seqNo >= s.db.outbox[id].seqNo
    ensures var t := Run(env, s, run).db;
            && t.outbox[id].status == Failed
            && t.chains[s.db.outbox[id].chainId].lastSealed < s.db.outbox[id].seqNo
            && !t.outbox[later].status.Sealed?
  {
    hide Run, DbInv, Evolves, AllAdmissible, GoodEnv;
    StaysFailed(env, s.db, Run(env, s, run).db, id, later);
  }

  /** Whatever happens between, a worker that claimed or loaded a capture never sees its rebuilt
      event rejected as divergent. */
  lemma HeldNeverDivergent(env: Env, run: seq<Step>, session: Text, cl: Claimed, worker: Option<Text>, sealedAt: Text)
    requires GoodEnv(env) && AllAdmissible(env, run) && cl in Reached(env, run).held
    ensures Indexed(Reached(env, run).db.events)
    ensures var a := AppendPhaseOf(env, Reached(env, run).db.events, session, cl, worker, sealedAt);
            a.AppendFailed? ==> !a.error.Divergent?
  {
    hide Run, DbInv;
    InvIndexed(env, Reached(env, run));
    NeverDivergent(env, Reached(env, run).db, session, cl, worker, sealedAt);
  }
}
