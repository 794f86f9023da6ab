/** The capture outbox and its SQL functions (insert_locked, claim_for_seal, mark_sealed,
    mark_failed), with the pure builder of the event a capture is sealed into. */
module Outbox {
  import opened Wrappers
  import opened Utf16
  import opened CanonicalJson
  import opened AuditChain
  import opened AuditAppend

  datatype Category = Auth | Run | Policy | Admin

  datatype Posture = Strict | BestEffort

  datatype IntegrityAlg = KmsHmacSha256 | Sha256Digest

  /** The immutable columns of a capture. */
  datatype Content = Content(
    category: Category, eventType: Text, eventVersion: Text, subjectType: Text, subjectId: Text,
    occurredAt: Text, payloadHash: Bytes, payloadEncrypted: Option<Bytes>, dekWrapped: Option<Bytes>,
    keyId: Text, keyVersion: int, redaction: Json, evidence: Text,
    integrityTag: Option<Bytes>, integrityAlg: Option<IntegrityAlg>, posture: Posture)

  datatype Status = Captured | Sealing | Sealed(eventId: Text) | Failed

  datatype Row = Row(orgId: Text, chainId: Text, seqNo: nat, c: Content, status: Status)

  datatype ChainState = ChainState(orgId: Text, lastCaptured: nat, lastSealed: nat)

  datatype Db = Db(
    outbox: map<Text, Row>, chains: map<Text, ChainState>, refs: map<Text, Text>, events: Events)

  const EMPTY_DB := Db(map[], map[], map[], NO_EVENTS)

  /** Uninterpreted primitives: the chain's cryptography and the name-based event id; and the captures,
      by tenant and id, that are ever taken. */
  datatype Env = Env(crypto: Crypto, derive: (Text, Text) -> Text, captures: set<(Text, Text)>)

  predicate Known(env: Env, o: Text, c: Text) { (o, c) in env.captures }

  /** A text that a uuid column reads back as it is. */
  predicate InColumn(env: Env, t: Text) { env.crypto.uuid(t) == Some(t) }

  /** The derived ids are UUIDs as their column spells them, and among the captures that are ever taken
      no two share one. */
  ghost predicate GoodEnv(env: Env)
  {
    && (forall o, c :: IsUuid(env.derive(o, c)) && InColumn(env, env.derive(o, c)))
    && (forall o, c, o', c' | Known(env, o, c) && Known(env, o', c') ::
          env.derive(o, c) == env.derive(o', c') ==> o == o' && c == c')
  }

  /** There is such a derivation for every way of giving finitely many captures UUIDs of their own. */
  lemma EnvironmentExists(crypto: Crypto, ids: map<(Text, Text), Text>, other: Text)
    requires IsUuid(other) && crypto.uuid(other) == Some(other)
    requires forall p | p in ids :: IsUuid(ids[p]) && crypto.uuid(ids[p]) == Some(ids[p])
    requires forall p, q | p in ids && q in ids && ids[p] == ids[q] :: p == q
    ensures GoodEnv(Env(crypto, (o, c) => if (o, c) in ids then ids[(o, c)] else other, ids.Keys))
  {
    hide IsUuid;
    var env := Env(crypto, (o, c) => if (o, c) in ids then ids[(o, c)] else other, ids.Keys);
    forall o, c, o', c' | Known(env, o, c) && Known(env, o', c') && env.derive(o, c) == env.derive(o', c')
      ensures o == o' && c == c'
    {
      assert ids[(o, c)] == ids[(o', c')];
    }
  }

  /** What the table's CHECK constraints and the jsonb column guarantee of stored content. */
  ghost predicate ValidContent(c: Content)
  {
    WellFormed(c.redaction) && Plain(c.redaction) && AdmittedContent(c)
  }

  /** What `audit_capture_insert_locked` checks of the content. */
  predicate AdmittedContent(c: Content)
  {
    c.redaction.Obj? && !HasSqlBannedKey(c.redaction) && c.integrityTag.Some? == c.integrityAlg.Some?
  }

  // ---------------------------------------------------------------------------------------
  // The event a capture is sealed into
  // ---------------------------------------------------------------------------------------

  /** The capture as a claim or a recovery load returns it. */
  datatype Claimed = Claimed(captureId: Text, orgId: Text, chainId: Text, seqNo: nat, c: Content)

  function ClaimedOf(id: Text, row: Row): Claimed
  {
    Claimed(id, row.orgId, row.chainId, row.seqNo, row.c)
  }

  function CategoryText(c: Category): Text
  {
    match c
    case Auth => Key("auth")
    case Run => Key("run")
    case Policy => Key("policy")
    case Admin => Key("admin")
  }

  /** `auditCategoryChainId`. */
  function AuditChainId(orgId: Text, c: Category): Text { orgId + [COLON] + CategoryText(c) }

  lemma CategoryTexts(c: Category)
    ensures |CategoryText(c)| > 0 && forall i | 0 <= i < |CategoryText(c)| :: CategoryText(c)[i] != COLON
    ensures forall d | |CategoryText(d)| == |CategoryText(c)| :: d == c
  {
  }

  lemma ShorterCategory(o: Text, c: Category, p: Text, d: Category)
    requires |CategoryText(c)| < |CategoryText(d)|
    ensures AuditChainId(o, c) != AuditChainId(p, d)
  {
    hide CategoryText;
    CategoryTexts(d);
    var s, t, m, n := AuditChainId(o, c), AuditChainId(p, d), |CategoryText(c)|, |CategoryText(d)|;
    assert s[|s| - 1 - m] == COLON && t[|t| - 1 - m] == CategoryText(d)[n - 1 - m];
  }

  /** A chain id names one tenant. */
  lemma ChainNamesTenant(o: Text, c: Category, p: Text, d: Category)
    requires AuditChainId(o, c) == AuditChainId(p, d)
    ensures o == p && c == d
  {
    hide CategoryText;
    if |CategoryText(c)| < |CategoryText(d)| {
      ShorterCategory(o, c, p, d);
    } else if |CategoryText(d)| < |CategoryText(c)| {
      ShorterCategory(p, d, o, c);
    } else {
      CategoryTexts(c);
      var t := AuditChainId(o, c);
      assert t[..|o|] == o && t[..|p|] == p;
    }
  }

  /** Object spread followed by one property: an existing key keeps its place. */
  function Put(ms: seq<Member>, k: Text, v: Json): seq<Member>
  {
    if |ms| == 0 then [Member(k, v)]
    else if ms[0].key == k then [Member(k, v)] + ms[1..]
    else [ms[0]] + Put(ms[1..], k, v)
  }

  function HasMember(ms: seq<Member>, k: Text): bool { Find(ms, k).Some? }

  /** The top-level keys the outbox refuses. */
  predicate HasSqlBannedKey(redaction: Json)
  {
    redaction.Obj? &&
    var ms := redaction.members;
    || HasMember(ms, Key("prompt")) || HasMember(ms, Key("response"))
    || HasMember(ms, Key("raw_input")) || HasMember(ms, Key("raw_output"))
  }

  /** The top-level keys only the TypeScript side refuses: `captureAuditEvent` before the call and the
      event builder after it. */
  predicate HasUncheckedKey(redaction: Json)
  {
    redaction.Obj? &&
    var ms := redaction.members;
    || HasMember(ms, Key("messages")) || HasMember(ms, Key("completion"))
    || HasMember(ms, Key("requestBody")) || HasMember(ms, Key("responseBody"))
  }

  /** The top-level keys the builder refuses to carry into the chain. */
  predicate HasBannedKey(redaction: Json) { HasSqlBannedKey(redaction) || HasUncheckedKey(redaction) }

  function AlgJson(a: Option<IntegrityAlg>): Json
  {
    if a.None? then Null else Str(if a.value.Sha256Digest? then Key("sha256_digest") else Key("kms_hmac_sha256"))
  }

  function SealerBlock(cl: Claimed, worker: Option<Text>, sealedAt: Text): Json
  {
    Obj([
      Member(Key("version"), Num([49])),
      Member(Key("capture_id"), Str(cl.captureId)),
      Member(Key("capture_seq"), Str(Decimal(cl.seqNo))),
      Member(Key("capture_chain_id"), Str(cl.chainId)),
      Member(Key("chain_category"), Str(CategoryText(cl.c.category))),
      Member(Key("posture"), Str(if cl.c.posture.Strict? then Key("strict") else Key("best_effort"))),
      Member(Key("capture_integrity_alg"), AlgJson(cl.c.integrityAlg)),
      Member(Key("has_payload_encrypted"), Bool(cl.c.payloadEncrypted.Some?)),
      Member(Key("has_dek_wrapped"), Bool(cl.c.dekWrapped.Some?)),
      Member(Key("has_capture_integrity_tag"), Bool(cl.c.integrityTag.Some?)),
      Member(Key("sealed_at"), Str(sealedAt)),
      Member(Key("sealed_by"), Str(Key("audit-sealer-core")))]
      + if worker.Some? then [Member(Key("worker_id"), Str(worker.value))] else [])
  }

  function MergedRedaction(cl: Claimed, worker: Option<Text>, sealedAt: Text): Json
  {
    Obj(Put(if cl.c.redaction.Obj? then cl.c.redaction.members else [],
            Key("audit_sealer"), SealerBlock(cl, worker, sealedAt)))
  }

  /** `buildAuditCaptureSealingEvent` with the derived id; None when it refuses a banned key.
      No payload ever travels with the event. */
  function Build(env: Env, cl: Claimed, worker: Option<Text>, sealedAt: Text): Option<AppendInput>
  {
    if HasBannedKey(cl.c.redaction) then None
    else Some(AppendInput(
      cl.orgId, AuditChainId(cl.orgId, cl.c.category), cl.c.eventType, cl.c.eventVersion,
      cl.c.subjectType, cl.c.subjectId, cl.c.occurredAt, cl.c.payloadHash, None, None,
      cl.c.keyId, cl.c.keyVersion, MergedRedaction(cl, worker, sealedAt),
      Some(if cl.c.evidence == Key("dev_signed") then DevSigned else HmacInternal),
      Some(env.derive(cl.orgId, cl.captureId))))
  }

  lemma {:induction false} FindPut(ms: seq<Member>, k: Text, v: Json)
    ensures Find(Put(ms, k, v), k) == Some(v)
  {
    if |ms| > 0 && ms[0].key != k { FindPut(ms[1..], k, v); }
  }

  lemma {:induction false} FindPutOther(ms: seq<Member>, k: Text, v: Json, other: Text)
    requires other != k
    ensures Find(Put(ms, k, v), other) == Find(ms, other)
  {
    if |ms| > 0 && ms[0].key != k { FindPutOther(ms[1..], k, v, other); }
  }

  lemma {:induction false} FindAt(ms: seq<Member>, i: nat)
    requires DistinctKeys(ms) && i < |ms|
    ensures Find(ms, ms[i].key) == Some(ms[i].value)
  {
    if i > 0 {
      assert ms[0].key != ms[i].key;
      FindAt(ms[1..], i - 1);
    }
  }

  function BlockCode(i: nat): int
  {
    if i == 0 then 7110
    else if i == 1 then 10100
    else if i == 2 then 11113
    else if i == 3 then 16100
    else if i == 4 then 14121
    else if i == 5 then 7101
    else if i == 6 then 21103
    else if i == 7 then 21100
    else if i == 8 then 15100
    else if i == 9 then 25103
    else if i == 10 then 9116
    else if i == 11 then 9121
    else 9100
  }

  lemma BlockCodesDistinct(i: nat, j: nat)
    requires i < j < 13
    ensures BlockCode(i) != BlockCode(j)
  {
  }

  lemma BlockKeysDistinct(cl: Claimed, worker: Option<Text>, sealedAt: Text)
    ensures DistinctKeys(SealerBlock(cl, worker, sealedAt).members)
  {
    var ms := SealerBlock(cl, worker, sealedAt).members;
    BlockNames(cl, worker, sealedAt);
    hide Key, SealerBlock, BlockCode, NameCode;
    forall i, j | 0 <= i < j < |ms| ensures ms[i].key != ms[j].key { BlockCodesDistinct(i, j); }
  }

  lemma BlockMembers(cl: Claimed, worker: Option<Text>, sealedAt: Text)
    ensures var ms := SealerBlock(cl, worker, sealedAt).members;
            && |ms| == (if worker.Some? then 13 else 12)
            && ms[0] == Member(Key("version"), Num([49]))
            && ms[1] == Member(Key("capture_id"), Str(cl.captureId))
            && ms[2] == Member(Key("capture_seq"), Str(Decimal(cl.seqNo)))
            && ms[3] == Member(Key("capture_chain_id"), Str(cl.chainId))
            && ms[4] == Member(Key("chain_category"), Str(CategoryText(cl.c.category)))
            && ms[5] == Member(Key("posture"), Str(if cl.c.posture.Strict? then Key("strict") else Key("best_effort")))
            && ms[6] == Member(Key("capture_integrity_alg"), AlgJson(cl.c.integrityAlg))
            && ms[7] == Member(Key("has_payload_encrypted"), Bool(cl.c.payloadEncrypted.Some?))
            && ms[8] == Member(Key("has_dek_wrapped"), Bool(cl.c.dekWrapped.Some?))
            && ms[9] == Member(Key("has_capture_integrity_tag"), Bool(cl.c.integrityTag.Some?))
            && ms[10] == Member(Key("sealed_at"), Str(sealedAt))
            && ms[11] == Member(Key("sealed_by"), Str(Key("audit-sealer-core")))
            && (worker.Some? ==> ms[12] == Member(Key("worker_id"), Str(worker.value)))
  {
    hide Decimal, CategoryText, AlgJson, Key;
  }

  lemma BlockNames(cl: Claimed, worker: Option<Text>, sealedAt: Text)
    ensures var ms := SealerBlock(cl, worker, sealedAt).members;
            |ms| <= 13 && forall i | 0 <= i < |ms| :: |ms[i].key| > 0 && NameCode(ms[i].key) == BlockCode(i)
  {
    hide Key, SealerBlock, NameCode;
    BlockMembers(cl, worker, sealedAt);
    KeyCode("version", 7110);
    KeyCode("capture_id", 10100);
    KeyCode("capture_seq", 11113);
    KeyCode("capture_chain_id", 16100);
    KeyCode("chain_category", 14121);
    KeyCode("posture", 7101);
    KeyCode("capture_integrity_alg", 21103);
    KeyCode("has_payload_encrypted", 21100);
    KeyCode("has_dek_wrapped", 15100);
    KeyCode("has_capture_integrity_tag", 25103);
    KeyCode("sealed_at", 9116);
    KeyCode("sealed_by", 9121);
    KeyCode("worker_id", 9100);
  }

  function Word(c: Category): string
  {
    match c
    case Auth => "auth"
    case Run => "run"
    case Policy => "policy"
    case Admin => "admin"
  }

  lemma CategoryWord(c: Category)
    ensures CategoryText(c) == Key(Word(c))
  {
  }

  /** The descriptors of a capture in the block of its event. */
  ghost predicate Describes(block: seq<Member>, id: Text, row: Row)
  {
    && Find(block, Key("version")) == Some(Num([49])) && Find(block, Key("capture_id")) == Some(Str(id))
    && Find(block, Key("capture_seq")) == Some(Str(Decimal(row.seqNo)))
    && Find(block, Key("capture_chain_id")) == Some(Str(row.chainId))
    && Find(block, Key("chain_category")) == Some(Str(Key(Word(row.c.category))))
    && Find(block, Key("posture")) == Some(Str(Key(if row.c.posture == Strict then "strict" else "best_effort")))
    && Find(block, Key("sealed_by")) == Some(Str(Key("audit-sealer-core"))) && Flags(block, row)
  }

  /** What it says of the payload and of the integrity tag, without carrying either. */
  ghost predicate Flags(block: seq<Member>, row: Row)
  {
    && Find(block, Key("capture_integrity_alg"))
       == Some(if row.c.integrityAlg == None then Null
               else if row.c.integrityAlg == Some(Sha256Digest) then Str(Key("sha256_digest"))
               else Str(Key("kms_hmac_sha256")))
    && Find(block, Key("has_payload_encrypted")) == Some(Bool(row.c.payloadEncrypted != None))
    && Find(block, Key("has_dek_wrapped")) == Some(Bool(row.c.dekWrapped != None))
    && Find(block, Key("has_capture_integrity_tag")) == Some(Bool(row.c.integrityTag != None))
  }

  /** Metadata that carries every member of the capture's, and the sealer's block about the capture. */
  ghost predicate Carries(redaction: Json, id: Text, row: Row)
  {
    && redaction.Obj?
    && (forall k | k != Key("audit_sealer") ::
          Find(redaction.members, k) == if row.c.redaction.Obj? then Find(row.c.redaction.members, k) else None)
    && var block := Find(redaction.members, Key("audit_sealer"));
    block.Some? && block.value.Obj? && Describes(block.value.members, id, row)
  }

  lemma FindIn(ms: seq<Member>, i: nat, k: Text, v: Json)
    requires DistinctKeys(ms) && i < |ms| && ms[i] == Member(k, v)
    ensures Find(ms, k) == Some(v)
  {
    FindAt(ms, i);
  }

  lemma BlockFlags(cl: Claimed, row: Row, worker: Option<Text>, sealedAt: Text)
    requires ClaimedOf(cl.captureId, row) == cl
    ensures Flags(SealerBlock(cl, worker, sealedAt).members, row)
  {
    BlockKeysDistinct(cl, worker, sealedAt);
    BlockMembers(cl, worker, sealedAt);
    var block := SealerBlock(cl, worker, sealedAt).members;
    hide Key, SealerBlock, Find, DistinctKeys;
    FindIn(block, 6, Key("capture_integrity_alg"), AlgJson(cl.c.integrityAlg));
    FindIn(block, 7, Key("has_payload_encrypted"), Bool(cl.c.payloadEncrypted.Some?));
    FindIn(block, 8, Key("has_dek_wrapped"), Bool(cl.c.dekWrapped.Some?));
    FindIn(block, 9, Key("has_capture_integrity_tag"), Bool(cl.c.integrityTag.Some?));
  }

  lemma BlockDescribes(cl: Claimed, row: Row, worker: Option<Text>, sealedAt: Text)
    requires ClaimedOf(cl.captureId, row) == cl
    ensures var block := SealerBlock(cl, worker, sealedAt).members;
            && Describes(block, cl.captureId, row) && Find(block, Key("sealed_at")) == Some(Str(sealedAt))
            && (worker.Some? ==> Find(block, Key("worker_id")) == Some(Str(worker.value)))
  {
    BlockKeysDistinct(cl, worker, sealedAt);
    BlockMembers(cl, worker, sealedAt);
    BlockFlags(cl, row, worker, sealedAt);
    CategoryWord(cl.c.category);
    var block := SealerBlock(cl, worker, sealedAt).members;
    hide Key, SealerBlock, Decimal, Find, DistinctKeys, Flags, CategoryText, Word, AlgJson;
    FindIn(block, 0, Key("version"), Num([49]));
    FindIn(block, 1, Key("capture_id"), Str(cl.captureId));
    FindIn(block, 2, Key("capture_seq"), Str(Decimal(cl.seqNo)));
    FindIn(block, 3, Key("capture_chain_id"), Str(cl.chainId));
    FindIn(block, 4, Key("chain_category"), Str(CategoryText(cl.c.category)));
    FindIn(block, 5, Key("posture"), Str(if cl.c.posture.Strict? then Key("strict") else Key("best_effort")));
    FindIn(block, 10, Key("sealed_at"), Str(sealedAt));
    FindIn(block, 11, Key("sealed_by"), Str(Key("audit-sealer-core")));
    if worker.Some? { FindIn(block, 12, Key("worker_id"), Str(worker.value)); }
  }

  lemma MergedCarries(cl: Claimed, row: Row, worker: Option<Text>, sealedAt: Text)
    requires ClaimedOf(cl.captureId, row) == cl
    ensures Carries(MergedRedaction(cl, worker, sealedAt), cl.captureId, row)
  {
    assert SealerBlock(cl, worker, sealedAt).Obj?;
    hide Key, SealerBlock, Describes;
    var ms := if cl.c.redaction.Obj? then cl.c.redaction.members else [];
    var key, block := Key("audit_sealer"), SealerBlock(cl, worker, sealedAt);
    FindPut(ms, key, block);
    BlockDescribes(cl, row, worker, sealedAt);
    forall k | k != key ensures Find(Put(ms, key, block), k) == Find(ms, k) { FindPutOther(ms, key, block, k); }
  }

  /** The built event is stamped with its own capture. */
  lemma BuiltStamp(cl: Claimed, worker: Option<Text>, sealedAt: Text)
    ensures ReadSealerCaptureId(MergedRedaction(cl, worker, sealedAt)) == Some(cl.captureId)
  {
    hide Key, SealerBlock, Find;
    var row := Row(cl.orgId, cl.chainId, cl.seqNo, cl.c, Captured);
    MergedCarries(cl, row, worker, sealedAt);
  }

  const BANNED_KEYS := {"prompt", "response", "raw_input", "raw_output", "messages", "completion", "requestBody",
                        "responseBody"}

  /** The event is built exactly when the capture's metadata carries none of the eight raw-payload keys. */
  lemma BuildsExactly(env: Env, cl: Claimed, worker: Option<Text>, sealedAt: Text)
    ensures Build(env, cl, worker, sealedAt).None?
        <==> cl.c.redaction.Obj? && exists k, i ::
               0 <= i < |cl.c.redaction.members| && cl.c.redaction.members[i].key == Key(k) && k in BANNED_KEYS
  {
    hide MergedRedaction, Key;
    if cl.c.redaction.Obj? {
      forall k | k in BANNED_KEYS { FindsKey(cl.c.redaction.members, Key(k)); }
    }
  }

  lemma {:induction false} FindsKey(ms: seq<Member>, k: Text)
    ensures Find(ms, k).Some? <==> exists i | 0 <= i < |ms| :: ms[i].key == k
  {
    if |ms| > 0 {
      FindsKey(ms[1..], k);
      assert forall i | 0 < i < |ms| :: ms[i] == ms[1..][i - 1];
    }
  }

  // ---------------------------------------------------------------------------------------
  // The SQL functions: None is a raised exception
  // ---------------------------------------------------------------------------------------

  /** `audit_capture_insert_locked` (as amended: the redaction metadata is not compared). Its uuid
      parameters come as their type spells them. */
  function InsertLocked(db: Db, session: Text, id: Text, orgId: Text, chainId: Text, c: Content): (r: Option<Db>)
  {
    var st := if chainId in db.chains then db.chains[chainId] else ChainState(orgId, 0, 0);
    if session == [] || session != orgId || !AdmittedContent(c) || st.orgId != orgId then None
    else if id in db.outbox then
      var row := db.outbox[id];
      if row.orgId != orgId || row.chainId != chainId || row.c.(redaction := c.redaction) != c then None
      else Some(db.(chains := db.chains[chainId := st]))
    else
      Some(db.(outbox := db.outbox[id := Row(orgId, chainId, st.lastCaptured + 1, c, Captured)],
               chains := db.chains[chainId := st.(lastCaptured := st.lastCaptured + 1)]))
  }

  predicate IsNext(db: Db, chainId: Text, id: Text)
  {
    && chainId in db.chains && id in db.outbox && db.outbox[id].chainId == chainId
    && db.outbox[id].seqNo == db.chains[chainId].lastSealed + 1
  }

  predicate Claimable(db: Db, chainId: Text, id: Text)
  {
    IsNext(db, chainId, id) && db.outbox[id].status == Captured
  }

  function SetStatus(db: Db, id: Text, s: Status): Db
    requires id in db.outbox
  {
    db.(outbox := db.outbox[id := db.outbox[id].(status := s)])
  }

  datatype ClaimResult = ClaimDenied | NothingToClaim | ClaimedRow(id: Text)

  /** `audit_capture_claim_for_seal`: the next row of the chain, if it is still captured. */
  ghost function ClaimForSeal(db: Db, session: Text, orgId: Text, chainId: Text): (r: ClaimResult)
    ensures r.ClaimedRow? ==> Claimable(db, chainId, r.id)
  {
    if session != orgId then ClaimDenied
    else if chainId !in db.chains then NothingToClaim
    else if db.chains[chainId].orgId != orgId then ClaimDenied
    else if id :| Claimable(db, chainId, id) then ClaimedRow(id)
    else NothingToClaim
  }

  /** `audit_capture_mark_sealed`: strict order, idempotent on the same event id. */
  function MarkSealed(db: Db, session: Text, orgId: Text, id: Text, eventId: Text): (r: Option<Db>)
  {
    if session != orgId || id !in db.outbox || db.outbox[id].orgId != orgId then None
    else
      var row := db.outbox[id];
      if row.status.Sealed? then
        if id in db.refs && db.refs[id] == eventId then Some(db) else None
      else if row.status != Sealing then None
      else if !IsNext(db, row.chainId, id) then None
      else if id in db.refs || eventId in db.refs.Values then None
      else
        Some(SetStatus(db, id, Sealed(eventId)).(
          refs := db.refs[id := eventId],
          chains := db.chains[row.chainId := db.chains[row.chainId].(lastSealed := row.seqNo)]))
  }

  /** `audit_capture_mark_failed`. */
  function MarkFailed(db: Db, session: Text, orgId: Text, id: Text): (r: Option<Db>)
  {
    if session != orgId || id !in db.outbox || db.outbox[id].orgId != orgId then None
    else if db.outbox[id].status != Captured && db.outbox[id].status != Sealing then None
    else Some(SetStatus(db, id, Failed))
  }

  /** `loadSealingCaptureForRecovery` under the row-level security of a session. */
  datatype LoadResult = TenantContextError | Absent | Loaded(cl: Claimed)

  function LoadSealing(db: Db, session: Text, orgId: Text, id: Text): (r: LoadResult)
  {
    if session == [] || session != orgId then TenantContextError
    else if id in db.outbox && db.outbox[id].orgId == orgId && db.outbox[id].status == Sealing then
      Loaded(ClaimedOf(id, db.outbox[id]))
    else Absent
  }
}
