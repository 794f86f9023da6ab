/** What each SQL function of the outbox accepts and writes, column by column, and the seal of a caller that
    commits between its three phases. */
module SealingAnswers {
  import opened Wrappers
  import opened Utf16
  import opened CanonicalJson
  import opened AuditChain
  import opened AuditAppend
  import opened Outbox
  import opened SealingProtocol
  import opened SealingProgress

  const SQL_BANNED_KEYS := {"prompt", "response", "raw_input", "raw_output"}

  /** A member under one of the names. */
  ghost predicate HasAny(redaction: Json, names: set<string>)
  {
    redaction.Obj? && exists k, i ::
      0 <= i < |redaction.members| && redaction.members[i].key == Key(k) && k in names
  }

  lemma SqlBannedExactly(redaction: Json)
    ensures HasSqlBannedKey(redaction) <==> HasAny(redaction, SQL_BANNED_KEYS)
  {
    hide Key;
    if redaction.Obj? {
      forall k | k in SQL_BANNED_KEYS { FindsKey(redaction.members, Key(k)); }
    }
  }

  /** The chain is new or the tenant's own. */
  predicate OwnsChain(db: Db, orgId: Text, chainId: Text)
  {
    chainId in db.chains ==> db.chains[chainId].orgId == orgId
  }

  /** A repeated capture: the stored row is the same but for its metadata. */
  predicate Repeats(db: Db, id: Text, orgId: Text, chainId: Text, c: Content)
  {
    && id in db.outbox && db.outbox[id].orgId == orgId && db.outbox[id].chainId == chainId
    && var s := db.outbox[id].c;
    && s.category == c.category && s.eventType == c.eventType && s.eventVersion == c.eventVersion
    && s.subjectType == c.subjectType && s.subjectId == c.subjectId && s.occurredAt == c.occurredAt
    && s.payloadHash == c.payloadHash && s.payloadEncrypted == c.payloadEncrypted && s.dekWrapped == c.dekWrapped
    && s.keyId == c.keyId && s.keyVersion == c.keyVersion && s.evidence == c.evidence
    && s.integrityTag == c.integrityTag && s.integrityAlg == c.integrityAlg && s.posture == c.posture
  }

  /** A capture is taken in its tenant's session, on its tenant's chain, without the four refused keys; a
      repeat changes no row, anything else under a known id is refused, and a new capture takes the chain's
      next number. */
  lemma CaptureAnswers(db: Db, session: Text, id: Text, orgId: Text, chainId: Text, c: Content)
    ensures var r := InsertLocked(db, session, id, orgId, chainId, c);
            && (r.Some? <==>
                  && session == orgId && orgId != [] && OwnsChain(db, orgId, chainId)
                  && c.redaction.Obj? && !HasAny(c.redaction, SQL_BANNED_KEYS)
                  && (c.integrityTag == None <==> c.integrityAlg == None)
                  && (id in db.outbox ==> Repeats(db, id, orgId, chainId, c)))
            && (r.Some? ==>
                  && r.value.refs == db.refs && r.value.events == db.events
                  && chainId in r.value.chains && r.value.chains == db.chains[chainId := r.value.chains[chainId]]
                  && r.value.chains[chainId].orgId == orgId
                  && var before := if chainId in db.chains then db.chains[chainId] else ChainState(orgId, 0, 0);
                  && r.value.chains[chainId].lastSealed == before.lastSealed
                  && if id in db.outbox then
                       r.value.outbox == db.outbox && r.value.chains[chainId].lastCaptured == before.lastCaptured
                     else
                       && r.value.chains[chainId].lastCaptured == before.lastCaptured + 1
                       && r.value.outbox == db.outbox[id := Row(orgId, chainId, before.lastCaptured + 1, c, Captured)])
  {
    hide HasSqlBannedKey, HasAny;
    SqlBannedExactly(c.redaction);
  }

  /** The row is the next of its chain. */
  predicate NextInChain(db: Db, id: Text)
    requires id in db.outbox
  {
    db.outbox[id].chainId in db.chains && db.outbox[id].seqNo == db.chains[db.outbox[id].chainId].lastSealed + 1
  }

  /** A claim finds the chain's next row exactly when that row is still captured. */
  lemma ClaimAnswers(db: Db, session: Text, orgId: Text, chainId: Text)
    ensures var r := ClaimForSeal(db, session, orgId, chainId);
            && (r == ClaimDenied <==> session != orgId || !OwnsChain(db, orgId, chainId))
            && (r.ClaimedRow? ==>
                  && r.id in db.outbox && db.outbox[r.id].chainId == chainId
                  && NextInChain(db, r.id) && db.outbox[r.id].status == Captured)
            && (r == NothingToClaim ==>
                  forall id | id in db.outbox && db.outbox[id].chainId == chainId && NextInChain(db, id) ::
                    db.outbox[id].status != Captured)
  {
    var r := ClaimForSeal(db, session, orgId, chainId);
    if r == NothingToClaim {
      forall id | id in db.outbox && db.outbox[id].chainId == chainId && NextInChain(db, id)
        ensures db.outbox[id].status != Captured
      {
        assert !Claimable(db, chainId, id);
      }
    }
  }

  /** A mark is accepted for the tenant's next row in sealing under an event id not used before, and, without
      effect, for a row already sealed into that event; it seals that row and raises the chain's mark. */
  lemma MarkAnswers(db: Db, session: Text, orgId: Text, id: Text, eventId: Text)
    ensures var r := MarkSealed(db, session, orgId, id, eventId);
            var own := session == orgId && id in db.outbox && db.outbox[id].orgId == orgId;
            var again := own && db.outbox[id].status.Sealed? && id in db.refs && db.refs[id] == eventId;
            var first := own && db.outbox[id].status == Sealing && NextInChain(db, id) && id !in db.refs
                         && forall k | k in db.refs :: db.refs[k] != eventId;
            && (r.Some? <==> again || first)
            && (again ==> r == Some(db))
            && (first ==>
                  && r.value.events == db.events && r.value.refs == db.refs[id := eventId]
                  && r.value.outbox == db.outbox[id := db.outbox[id].(status := Sealed(eventId))]
                  && var chain := db.outbox[id].chainId;
                  r.value.chains
                  == db.chains[chain := db.chains[chain].(lastSealed := db.chains[chain].lastSealed + 1)])
  {
  }

  /** The tenant's row can be failed until it is sealed, and nothing but its status changes. */
  lemma FailAnswers(db: Db, session: Text, orgId: Text, id: Text)
    ensures var r := MarkFailed(db, session, orgId, id);
            && (r.Some? <==>
                  && session == orgId && id in db.outbox && db.outbox[id].orgId == orgId
                  && !db.outbox[id].status.Sealed? && db.outbox[id].status != Failed)
            && (r.Some? ==> r.value == db.(outbox := db.outbox[id := db.outbox[id].(status := Failed)]))
  {
  }

  /** A recovery loads the tenant's row in sealing with all its columns, and nothing in any other session. */
  lemma LoadAnswers(db: Db, session: Text, orgId: Text, id: Text)
    ensures var r := LoadSealing(db, session, orgId, id);
            var there := id in db.outbox && db.outbox[id].orgId == orgId && db.outbox[id].status == Sealing;
            && (r == TenantContextError <==> session != orgId || orgId == [])
            && (r.Loaded? <==> session == orgId && orgId != [] && there)
            && (r.Loaded? ==>
                  && r.cl.captureId == id && r.cl.orgId == orgId && r.cl.chainId == db.outbox[id].chainId
                  && r.cl.seqNo == db.outbox[id].seqNo && r.cl.c == db.outbox[id].c)
  {
  }

  // ---------------------------------------------------------------------------------------
  // Claim, append and mark in commits of their own
  // ---------------------------------------------------------------------------------------

  /** The steps of a caller that commits its claim, its append and its mark one after the other. */
  function ThreeCommits(orgId: Text, chainId: Text, cl: Claimed, worker: Option<Text>, sealedAt: Text): seq<Step>
  {
    [Claim(orgId, orgId, chainId), AppendHeld(orgId, cl, worker, sealedAt), MarkAppended(orgId, cl)]
  }

  /** Such a caller reaches the database of the one-transaction seal when nothing comes between, and so seals
      every next capture that is not refused. */
  lemma ThreeCommitsSeal(env: Env, s: State, orgId: Text, chainId: Text, id: Text, worker: Option<Text>, sealedAt: Text)
    requires GoodEnv(env) && Inv(env, s) && Indexed(s.db.events)
    requires Claimable(s.db, chainId, id) && s.db.chains[chainId].orgId == orgId && !Refused(s.db, id)
    ensures var run := ThreeCommits(orgId, chainId, ClaimedOf(id, s.db.outbox[id]), worker, sealedAt);
            && AllAdmissible(env, run)
            && SealingProtocol.Run(env, s, run).db == SealOnce(env, s.db, orgId, orgId, chainId, worker, sealedAt).0
            && id in SealingProtocol.Run(env, s, run).db.outbox
            && SealingProtocol.Run(env, s, run).db.outbox[id].status == Sealed(env.derive(orgId, id))
  {
    ClaimTakes(env, s.db, orgId, chainId, id);
    var cl := ClaimedOf(id, s.db.outbox[id]);
    var a, b, c := Claim(orgId, orgId, chainId), AppendHeld(orgId, cl, worker, sealedAt), MarkAppended(orgId, cl);
    hide DbInv, AppendPhaseOf, MarkSealed, HeldOk, GoodEnv, Indexed, HasBannedKey, Claimable, TakenByOther, Inv,
         SealingProtocol.Run, SealOnce, Evolves, Next, ClaimForSeal, Admissible, Blocked, Refused;
    CommitsAdmissible(env, a, b, c);
    RunThree(env, s, a, b, c);
    SealsExactly(env, s.db, orgId, chainId, id, worker, sealedAt);
    CommitsAdd(env, s, orgId, chainId, cl, worker, sealedAt, Next(env, s, a), Next(env, Next(env, s, a), b));
  }

  lemma CommitsAdmissible(env: Env, a: Step, b: Step, c: Step)
    requires a.Claim? && b.AppendHeld? && c.MarkAppended?
    ensures Admissible(env, a) && Admissible(env, b) && Admissible(env, c)
  {
  }

  lemma RunThree(env: Env, s: State, a: Step, b: Step, c: Step)
    requires GoodEnv(env) && Inv(env, s) && Indexed(s.db.events)
    requires Admissible(env, a) && Admissible(env, b) && Admissible(env, c)
    ensures AllAdmissible(env, [a, b, c]) && Indexed(Next(env, s, a).db.events)
    ensures Indexed(Next(env, Next(env, s, a), b).db.events)
    ensures SealingProtocol.Run(env, s, [a, b, c]) == Next(env, Next(env, Next(env, s, a), b), c)
  {
    hide GoodEnv, Inv, Indexed, Next, Admissible, Evolves;
    var t := Next(env, s, a);
    StepKeeps(env, s, a);
    InvIndexed(env, t);
    StepKeeps(env, t, b);
    InvIndexed(env, Next(env, t, b));
    assert [a, b, c][..2] == [a, b] && [a, b][..1] == [a] && [a][..0] == [];
    assert SealingProtocol.Run(env, s, []) == s;
    assert SealingProtocol.Run(env, s, [a]) == t;
    assert SealingProtocol.Run(env, s, [a, b]) == Next(env, t, b);
  }

  lemma CommitsAdd(env: Env, s: State, orgId: Text, chainId: Text, cl: Claimed, worker: Option<Text>, sealedAt: Text,
                   claimed: State, appended: State)
    requires GoodEnv(env) && Inv(env, s) && Indexed(s.db.events)
    requires ClaimForSeal(s.db, orgId, orgId, chainId) == ClaimedRow(cl.captureId)
    requires cl.captureId in s.db.outbox && cl == ClaimedOf(cl.captureId, s.db.outbox[cl.captureId])
    requires cl.orgId == orgId && !Refused(s.db, cl.captureId)
    requires claimed == Next(env, s, Claim(orgId, orgId, chainId)) && Indexed(claimed.db.events)
    requires appended == Next(env, claimed, AppendHeld(orgId, cl, worker, sealedAt)) && Indexed(appended.db.events)
    requires SealOnce(env, s.db, orgId, orgId, chainId, worker, sealedAt).1.SealedOne?
    ensures Next(env, appended, MarkAppended(orgId, cl)).db
         == SealOnce(env, s.db, orgId, orgId, chainId, worker, sealedAt).0
  {
    hide DbInv, AppendPhaseOf, MarkSealed, HeldOk, GoodEnv, Indexed, HasBannedKey, Claimable, TakenByOther,
         ClaimForSeal;
    var a := AppendPhaseOf(env, s.db.events, orgId, cl, worker, sealedAt);
    assert claimed.db == SetStatus(s.db, cl.captureId, Sealing) && cl in claimed.held;
    ClaimKeeps(env, s.db, chainId, cl.captureId);
    assert a.AppendDone?;
    AppendPhaseKeeps(env, claimed.db, orgId, cl, worker, sealedAt);
  }
}
