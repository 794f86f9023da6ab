/** When a seal or a recovery succeeds: exactly when the capture's redaction carries no banned key and
    its audit chain holds no event of another tenant. Otherwise it stalls its chain. */
module SealingProgress {
  import opened Wrappers
  import opened Utf16
  import opened CanonicalJson
  import opened AuditChain
  import opened AuditAppend
  import opened Outbox
  import opened SealingProtocol

  // ---------------------------------------------------------------------------------------
  // A sealing event can always be canonicalized
  // ---------------------------------------------------------------------------------------

  lemma {:induction false} PutPlain(ms: seq<Member>, k: Text, v: Json)
    requires Plain(v) && forall i | 0 <= i < |ms| :: Plain(ms[i].value)
    ensures forall i | 0 <= i < |Put(ms, k, v)| :: Plain(Put(ms, k, v)[i].value)
  {
    if |ms| > 0 && ms[0].key != k { PutPlain(ms[1..], k, v); }
  }

  lemma BlockPlain(cl: Claimed, worker: Option<Text>, sealedAt: Text)
    ensures Plain(SealerBlock(cl, worker, sealedAt))
  {
    hide Key, Decimal, CategoryText;
    assert Plain(AlgJson(cl.c.integrityAlg));
  }

  lemma MergedPlain(cl: Claimed, worker: Option<Text>, sealedAt: Text)
    requires ValidContent(cl.c)
    ensures Plain(MergedRedaction(cl, worker, sealedAt))
  {
    hide SealerBlock, Key, WellFormed;
    BlockPlain(cl, worker, sealedAt);
    PutPlain(cl.c.redaction.members, Key("audit_sealer"), SealerBlock(cl, worker, sealedAt));
  }

  lemma BlockWellFormed(cl: Claimed, worker: Option<Text>, sealedAt: Text)
    ensures WellFormed(SealerBlock(cl, worker, sealedAt))
  {
    hide Decimal, CategoryText, Key, DistinctKeys;
    BlockKeysDistinct(cl, worker, sealedAt);
    assert WellFormed(AlgJson(cl.c.integrityAlg));
  }

  lemma {:induction false} PutDistinct(ms: seq<Member>, k: Text, v: Json)
    requires DistinctKeys(ms) && WellFormed(v) && forall i | 0 <= i < |ms| :: WellFormed(ms[i].value)
    ensures DistinctKeys(Put(ms, k, v))
    ensures forall i | 0 <= i < |Put(ms, k, v)| :: WellFormed(Put(ms, k, v)[i].value)
    ensures forall i | 0 <= i < |Put(ms, k, v)| :: Put(ms, k, v)[i].key == k || HasKey(ms, Put(ms, k, v)[i].key)
  {
    hide WellFormed;
    if |ms| > 0 {
      assert HasKey(ms, ms[0].key);
      if ms[0].key == k {
        forall i | 0 < i < |ms| ensures HasKey(ms, ms[i].key) {}
      } else {
        PutDistinct(ms[1..], k, v);
        var r := Put(ms[1..], k, v);
        forall i | 0 <= i < |r| ensures r[i].key != ms[0].key && (r[i].key == k || HasKey(ms, r[i].key)) {
          if r[i].key != k {
            var j :| 0 <= j < |ms[1..]| && ms[1..][j].key == r[i].key;
            assert ms[j + 1].key == r[i].key;
          }
        }
      }
    }
  }

  lemma MergedWellFormed(cl: Claimed, worker: Option<Text>, sealedAt: Text)
    requires ValidContent(cl.c)
    ensures WellFormed(MergedRedaction(cl, worker, sealedAt))
  {
    hide SealerBlock, Key, Plain;
    BlockWellFormed(cl, worker, sealedAt);
    PutDistinct(cl.c.redaction.members, Key("audit_sealer"), SealerBlock(cl, worker, sealedAt));
  }

  lemma BuiltShape(env: Env, cl: Claimed, worker: Option<Text>, sealedAt: Text)
    requires !HasBannedKey(cl.c.redaction)
    ensures var input := Build(env, cl, worker, sealedAt);
            && input.Some? && input.value.orgId == cl.orgId
            && input.value.eventId == Some(env.derive(cl.orgId, cl.captureId))
            && input.value.redaction == MergedRedaction(cl, worker, sealedAt)
            && input.value.payload.None? && input.value.dekWrapped.None?
            && input.value.chainId == AuditChainId(cl.orgId, cl.c.category)
  {
    hide MergedRedaction, HasBannedKey, AuditChainId, Key;
  }

  // ---------------------------------------------------------------------------------------
  // The phases succeed
  // ---------------------------------------------------------------------------------------

  /** Another tenant has written to the audit chain a capture is to be sealed into. */
  predicate Blocked(db: Db, orgId: Text, c: Category) { TakenByOther(db.events, AuditChainId(orgId, c), orgId) }

  /** The append phase succeeds in the tenant's session exactly when no banned key is present and the
      audit chain is free of other tenants: the head of one that is not is invisible to the session, and
      the number it then takes is in use. */
  lemma AppendSucceeds(env: Env, db: Db, cl: Claimed, worker: Option<Text>, sealedAt: Text)
    requires GoodEnv(env) && DbInv(env, db) && HeldOk(db, cl) && Indexed(db.events)
    ensures var a := AppendPhaseOf(env, db.events, cl.orgId, cl, worker, sealedAt);
            if HasBannedKey(cl.c.redaction) then a.BuilderRefused?
            else if Blocked(db, cl.orgId, cl.c.category) then a == AppendFailed(StorageRejected)
            else a.AppendDone?
  {
    hide DbInv, HasBannedKey, Build, Indexed, Append, MergedRedaction, TakenByOther;
    if HasBannedKey(cl.c.redaction) {
      BuildRefuses(env, cl, worker, sealedAt);
    } else {
      BuiltShape(env, cl, worker, sealedAt);
      HeldContent(env, db, cl);
      MergedPlain(cl, worker, sealedAt);
      var input := Build(env, cl, worker, sealedAt).value;
      NeverDivergent(env, db, cl.orgId, cl, worker, sealedAt);
      EventCanonical(env.crypto, NewFields(db.events, input, input.eventId.value, []));
      BuiltStored(env, db, cl, worker, sealedAt);
      AppendDecided(env, db, cl, input);
    }
  }

  lemma BuildRefuses(env: Env, cl: Claimed, worker: Option<Text>, sealedAt: Text)
    requires HasBannedKey(cl.c.redaction)
    ensures Build(env, cl, worker, sealedAt) == None
  {
  }

  lemma HeldContent(env: Env, db: Db, cl: Claimed)
    requires DbInv(env, db) && HeldOk(db, cl)
    ensures ValidContent(cl.c)
    ensures cl.captureId in db.outbox && cl.orgId != []
    ensures EventOk(env, db, cl.captureId) && db.outbox[cl.captureId].orgId == cl.orgId
    ensures db.outbox[cl.captureId].c == cl.c
  {
    hide EventsValid, ChainsDense, StampOk, EventOk, ValidContent;
    assert RowOk(env, db, cl.captureId);
  }

  lemma AppendDecided(env: Env, db: Db, cl: Claimed, input: AppendInput)
    requires GoodEnv(env) && DbInv(env, db) && HeldOk(db, cl) && Indexed(db.events)
    requires input.orgId == cl.orgId && input.eventId == Some(env.derive(cl.orgId, cl.captureId))
    requires input.chainId == AuditChainId(cl.orgId, cl.c.category) && input.payload.None? && input.dekWrapped.None?
    requires var f := NewFields(db.events, input, input.eventId.value, []);
             Canonical(EventJson(env.crypto, f)).Some? && Stored(env.crypto, f) == Some(f)
    ensures var r := Append(env.crypto, db.events, Some(cl.orgId), input, [], []);
            if Blocked(db, cl.orgId, cl.c.category) then r == Rejected(StorageRejected)
            else r.Rejected? ==> r.error.Divergent?
  {
    hide EventsValid, ChainsDense, StampOk, RowOk, Canonical, EventJson, FirstDivergence, IsUuid, Indexed,
         NumberTaken, TakenByOther, VisibleHead, ChainRows, ReadSealerCaptureId, EvidenceText, AuditChainId, Key,
         Stored, OneTenantEach;
    HeldContent(env, db, cl);
    EventsOneTenant(env, db);
    NextIsFree(db.events, input, input.eventId.value, []);
    var e := env.derive(cl.orgId, cl.captureId);
    if e in db.events.table {
      EventPlace(db.events, e);
      OwnEventUnblocks(env, db, cl);
    }
  }

  lemma EventsOneTenant(env: Env, db: Db)
    requires DbInv(env, db)
    ensures OneTenantEach(db.events)
  {
    hide Indexed, OneTenantEach;
  }

  /** A chain that holds a capture's own event is that capture's tenant's. */
  lemma OwnEventUnblocks(env: Env, db: Db, cl: Claimed)
    requires DbInv(env, db) && HeldOk(db, cl) && env.derive(cl.orgId, cl.captureId) in db.events.table
    ensures !Blocked(db, cl.orgId, cl.c.category)
  {
    hide Indexed, ChainsDense, StampOk, RowOk, AuditChainId, ReadSealerCaptureId, Key, Carries;
    assert EventOk(env, db, cl.captureId);
    RecordedChain(db.events.table[env.derive(cl.orgId, cl.captureId)].f, cl.captureId, db.outbox[cl.captureId]);
  }

  lemma MarkSucceeds(env: Env, db: Db, cl: Claimed)
    requires GoodEnv(env) && DbInv(env, db) && HeldOk(db, cl)
    requires db.outbox[cl.captureId].status == Sealing || db.outbox[cl.captureId].status.Sealed?
    ensures var eid := env.derive(cl.orgId, cl.captureId);
            var r := MarkSealed(db, cl.orgId, cl.orgId, cl.captureId, eid);
            r.Some? && cl.captureId in r.value.outbox
            && r.value.outbox[cl.captureId] == db.outbox[cl.captureId].(status := Sealed(eid))
  {
    hide EventsValid, ChainsDense, StampOk, EventOk, ValidContent;
    var id, eid := cl.captureId, env.derive(cl.orgId, cl.captureId);
    assert RowOk(env, db, id);
    forall k | k in db.refs && k != id ensures db.refs[k] != eid {
      assert RowOk(env, db, k);
    }
  }

  /** Every attempt to seal the capture throws. */
  predicate Refused(db: Db, id: Text)
    requires id in db.outbox
  {
    HasBannedKey(db.outbox[id].c.redaction) || Blocked(db, db.outbox[id].orgId, db.outbox[id].c.category)
  }

  /** A seal of a chain whose next capture is claimable seals it, under its derived id, exactly when
      its redaction carries no banned key and its audit chain holds no other tenant's event; otherwise
      it throws and nothing changes. */
  lemma SealsExactly(env: Env, db: Db, orgId: Text, chainId: Text, id: Text, worker: Option<Text>, sealedAt: Text)
    requires GoodEnv(env) && DbInv(env, db) && Indexed(db.events)
    requires Claimable(db, chainId, id) && db.chains[chainId].orgId == orgId
    ensures var r := SealOnce(env, db, orgId, orgId, chainId, worker, sealedAt);
            if Refused(db, id) then r == (db, Threw)
            else
              && r.1 == SealedOne(id, env.derive(orgId, id))
              && r.0.outbox == db.outbox[id := db.outbox[id].(status := Sealed(env.derive(orgId, id)))]
              && r.0.chains
                 == db.chains[chainId := db.chains[chainId].(lastSealed := db.chains[chainId].lastSealed + 1)]
  {
    hide DbInv, AppendPhaseOf, MarkSealed, HeldOk, GoodEnv, Indexed, HasBannedKey, AppendedOk, Claimable, TakenByOther;
    ClaimTakes(env, db, orgId, chainId, id);
    var cl := ClaimedOf(id, db.outbox[id]);
    var d1 := SetStatus(db, id, Sealing);
    ClaimKeeps(env, db, chainId, id);
    AppendSucceeds(env, d1, cl, worker, sealedAt);
    var a := AppendPhaseOf(env, db.events, orgId, cl, worker, sealedAt);
    if a.AppendDone? {
      AppendPhaseKeeps(env, d1, orgId, cl, worker, sealedAt);
      var d2 := d1.(events := a.events);
      HeldAfter(d1, d2, cl);
      MarkSucceeds(env, d2, cl);
      MarkEffect(d2, orgId, orgId, id, a.eventId);
      MarkedFields(db, d2, chainId, id, a.eventId);
    }
  }

  lemma ClaimTakes(env: Env, db: Db, orgId: Text, chainId: Text, id: Text)
    requires DbInv(env, db) && Claimable(db, chainId, id) && db.chains[chainId].orgId == orgId
    ensures ClaimForSeal(db, orgId, orgId, chainId) == ClaimedRow(id)
    ensures id in db.outbox && db.outbox[id].orgId == orgId && db.outbox[id].chainId == chainId
  {
    hide EventsValid, StampOk, EventOk, ValidContent, ChainsDense;
    assert RowOk(env, db, id);
    var r := ClaimForSeal(db, orgId, orgId, chainId);
    if r.ClaimedRow? { SamePlaceSameRow(db, r.id, id); }
  }

  lemma HeldAfter(d1: Db, d2: Db, cl: Claimed)
    requires HeldOk(d1, cl) && d2.outbox == d1.outbox
    ensures HeldOk(d2, cl)
  {
  }

  lemma MarkedFields(db: Db, d2: Db, chainId: Text, id: Text, eid: Text)
    requires Claimable(db, chainId, id) && d2.outbox == SetStatus(db, id, Sealing).outbox && d2.chains == db.chains
    ensures MarkedDb(d2, id, eid).outbox == db.outbox[id := db.outbox[id].(status := Sealed(eid))]
    ensures MarkedDb(d2, id, eid).chains
            == db.chains[chainId := db.chains[chainId].(lastSealed := db.chains[chainId].lastSealed + 1)]
  {
  }

  /** No chain is newly closed to its tenant. */
  ghost predicate NoNewBlock(a: Db, b: Db)
  {
    forall o, c | Blocked(b, o, c) :: Blocked(a, o, c)
  }

  /** A seal closes no chain to its tenant. */
  lemma SealBlocksNone(env: Env, db: Db, session: Text, orgId: Text, chainId: Text, worker: Option<Text>,
                       sealedAt: Text)
    requires GoodEnv(env) && DbInv(env, db) && Indexed(db.events)
    ensures NoNewBlock(db, SealOnce(env, db, session, orgId, chainId, worker, sealedAt).0)
  {
    hide DbInv, AppendPhaseOf, MarkSealed, HeldOk, GoodEnv, Indexed, TakenByOther, AuditChainId, Evolves;
    var c := ClaimForSeal(db, session, orgId, chainId);
    if c.ClaimedRow? {
      var cl, d1 := ClaimedOf(c.id, db.outbox[c.id]), SetStatus(db, c.id, Sealing);
      ClaimKeeps(env, db, chainId, c.id);
      var a := AppendPhaseOf(env, db.events, session, cl, worker, sealedAt);
      if a.AppendDone? {
        AppendBlocksNone(env, d1, session, cl, worker, sealedAt);
        MarkEvents(d1.(events := a.events), session, cl.orgId, c.id, a.eventId);
        var r := SealOnce(env, db, session, orgId, chainId, worker, sealedAt).0;
        assert r.events == a.events || r == db;
        forall o, c | Blocked(r, o, c) ensures Blocked(db, o, c) {
          assert r.events == a.events ==> Blocked(d1.(events := a.events), o, c);
          assert Blocked(d1, o, c) ==> Blocked(db, o, c);
        }
      }
    }
  }

  lemma AppendBlocksNone(env: Env, db: Db, session: Text, cl: Claimed, worker: Option<Text>, sealedAt: Text)
    requires GoodEnv(env) && DbInv(env, db) && HeldOk(db, cl) && Indexed(db.events)
    requires AppendPhaseOf(env, db.events, session, cl, worker, sealedAt).AppendDone?
    ensures NoNewBlock(db, db.(events := AppendPhaseOf(env, db.events, session, cl, worker, sealedAt).events))
  {
    hide AppendPhaseOf, DbInv, GoodEnv, Indexed, AuditChainId, ReadSealerCaptureId, Key, EventsValid, Carries;
    var a := AppendPhaseOf(env, db.events, session, cl, worker, sealedAt);
    AppendPhaseEffect(env, db, session, cl, worker, sealedAt);
    var db', e := db.(events := a.events), env.derive(cl.orgId, cl.captureId);
    forall o, c | Blocked(db', o, c) ensures Blocked(db, o, c) {
      var x :| x in a.events.table && a.events.table[x].f.chainId == AuditChainId(o, c)
               && a.events.table[x].f.orgId != o;
      if x == e && e !in db.events.table {
        RecordedChain(a.events.table[e].f, cl.captureId, db.outbox[cl.captureId]);
        ChainNamesTenant(cl.orgId, cl.c.category, o, c);
      }
    }
  }

  /** A recovery of a capture that is still being sealed seals it exactly when its redaction carries no
      banned key and its audit chain holds no other tenant's event; one already sealed by a rival under
      the same id also counts as sealed. */
  lemma RecoversExactly(env: Env, db: Db, cl: Claimed, worker: Option<Text>, sealedAt: Text)
    requires GoodEnv(env) && DbInv(env, db) && Indexed(db.events) && HeldOk(db, cl)
    ensures var r := RecoverOnce(env, db, cl.orgId, cl, worker, sealedAt);
            var eid := env.derive(cl.orgId, cl.captureId);
            if HasBannedKey(cl.c.redaction) then r == (db, RecoverThrew(true, None))
            else if Blocked(db, cl.orgId, cl.c.category) then r == (db, RecoverThrew(false, Some(StorageRejected)))
            else if db.outbox[cl.captureId].status == Failed then r == (db, RecoverThrew(false, None))
            else r.1 == RecoverSealed(eid) && cl.captureId in r.0.outbox
                 && r.0.outbox[cl.captureId] == db.outbox[cl.captureId].(status := Sealed(eid))
  {
    hide DbInv, AppendPhaseOf, MarkSealed, GoodEnv, Indexed, HasBannedKey, AppendedOk, TakenByOther;
    AppendSucceeds(env, db, cl, worker, sealedAt);
    var a := AppendPhaseOf(env, db.events, cl.orgId, cl, worker, sealedAt);
    if a.AppendDone? {
      AppendPhaseKeeps(env, db, cl.orgId, cl, worker, sealedAt);
      var d2 := db.(events := a.events);
      if db.outbox[cl.captureId].status == Failed { MarkFails(d2, cl.orgId, cl.captureId, a.eventId); }
      else { MarkSucceeds(env, d2, cl); }
    }
  }

  lemma MarkFails(db: Db, orgId: Text, id: Text, eid: Text)
    requires id in db.outbox && db.outbox[id].status == Failed
    ensures MarkSealed(db, orgId, orgId, id, eid) == None
  {
  }

  // ---------------------------------------------------------------------------------------
  // A banned key stalls a chain
  // ---------------------------------------------------------------------------------------

  /** No event is ever written for a capture whose redaction carries a banned key. */
  ghost predicate NoBannedEvents(env: Env, db: Db)
  {
    forall id | id in db.outbox && HasBannedKey(db.outbox[id].c.redaction) ::
      env.derive(db.outbox[id].orgId, id) !in db.events.table
  }

  lemma NoBannedFrame(env: Env, db: Db, db': Db)
    requires DbInv(env, db) && NoBannedEvents(env, db) && db'.events == db.events
    requires forall id | id in db'.outbox :: Known(env, db'.outbox[id].orgId, id)
    requires forall id | id in db'.outbox && HasBannedKey(db'.outbox[id].c.redaction) && id in db.outbox ::
               db'.outbox[id].c == db.outbox[id].c && db'.outbox[id].orgId == db.outbox[id].orgId
    ensures NoBannedEvents(env, db')
  {
    hide EventsValid, ChainsDense, RowOk, EventOk, HasBannedKey, ReadSealerCaptureId;
    forall id | id in db'.outbox && HasBannedKey(db'.outbox[id].c.redaction)
      ensures env.derive(db'.outbox[id].orgId, id) !in db'.events.table
    {
      if id !in db.outbox {
        forall e | e in db.events.table ensures e != env.derive(db'.outbox[id].orgId, id) {
          assert StampOk(env, db, e);
        }
      }
    }
  }

  lemma AppendAddsOwn(env: Env, db: Db, session: Text, cl: Claimed, worker: Option<Text>, sealedAt: Text)
    requires GoodEnv(env) && DbInv(env, db) && HeldOk(db, cl) && NoBannedEvents(env, db)
    requires AppendPhaseOf(env, db.events, session, cl, worker, sealedAt).AppendDone?
    ensures NoBannedEvents(env, db.(events := AppendPhaseOf(env, db.events, session, cl, worker, sealedAt).events))
  {
    hide AppendPhaseOf, EventsValid, Indexed, RowOk, StampOk, EventOk, ChainsDense, Records, HasBannedKey;
    RowsKnown(env, db);
    AppendPhaseEffect(env, db, session, cl, worker, sealedAt);
    DoneNotBanned(env, db, session, cl, worker, sealedAt);
  }

  lemma DoneNotBanned(env: Env, db: Db, session: Text, cl: Claimed, worker: Option<Text>, sealedAt: Text)
    requires DbInv(env, db) && AppendPhaseOf(env, db.events, session, cl, worker, sealedAt).AppendDone?
    ensures !HasBannedKey(cl.c.redaction)
  {
    hide HasBannedKey;
    if HasBannedKey(cl.c.redaction) { BuildRefuses(env, cl, worker, sealedAt); }
  }

  lemma EvolvedFrame(env: Env, db: Db, db': Db)
    requires DbInv(env, db) && NoBannedEvents(env, db) && db'.events == db.events
    requires DbInv(env, db') && Evolves(db, db')
    ensures NoBannedEvents(env, db')
  {
    hide NoBannedEvents, HasBannedKey, EventsValid, ChainsDense, EventOk, StampOk;
    RowsKnown(env, db');
    forall id | id in db.outbox
      ensures id in db'.outbox && ClaimedOf(id, db'.outbox[id]) == ClaimedOf(id, db.outbox[id])
    {
    }
    NoBannedFrame(env, db, db');
  }

  lemma MarkEvents(db: Db, session: Text, orgId: Text, id: Text, eid: Text)
    ensures var r := MarkSealed(db, session, orgId, id, eid); r.Some? ==> r.value.events == db.events
  {
  }

  lemma SealKeepsBanned(env: Env, db: Db, session: Text, orgId: Text, chainId: Text, worker: Option<Text>,
                        sealedAt: Text)
    requires GoodEnv(env) && DbInv(env, db) && Indexed(db.events) && NoBannedEvents(env, db)
    ensures NoBannedEvents(env, SealOnce(env, db, session, orgId, chainId, worker, sealedAt).0)
  {
    hide DbInv, Evolves, AppendPhaseOf, MarkSealed, HeldOk, AppendedOk, GoodEnv, Indexed, NoBannedEvents;
    var c := ClaimForSeal(db, session, orgId, chainId);
    if c.ClaimedRow? {
      var cl := ClaimedOf(c.id, db.outbox[c.id]);
      var d1 := SetStatus(db, c.id, Sealing);
      ClaimKeeps(env, db, chainId, c.id);
      EvolvedFrame(env, db, d1);
      RecoverKeepsBanned(env, d1, session, cl, worker, sealedAt);
    }
  }

  /** The append and mark phases add no event for a banned capture. */
  lemma RecoverKeepsBanned(env: Env, db: Db, session: Text, cl: Claimed, worker: Option<Text>, sealedAt: Text)
    requires GoodEnv(env) && DbInv(env, db) && Indexed(db.events) && HeldOk(db, cl) && NoBannedEvents(env, db)
    ensures NoBannedEvents(env, RecoverOnce(env, db, session, cl, worker, sealedAt).0)
  {
    hide DbInv, Evolves, AppendPhaseOf, MarkSealed, HeldOk, AppendedOk, GoodEnv, Indexed, NoBannedEvents;
    var a := AppendPhaseOf(env, db.events, session, cl, worker, sealedAt);
    if a.AppendDone? {
      AppendAddsOwn(env, db, session, cl, worker, sealedAt);
      AppendPhaseKeeps(env, db, session, cl, worker, sealedAt);
      var d2 := db.(events := a.events);
      var m := MarkSealed(d2, session, cl.orgId, cl.captureId, a.eventId);
      if m.Some? {
        MarkKeeps(env, d2, session, cl);
        MarkEvents(d2, session, cl.orgId, cl.captureId, a.eventId);
        EvolvedFrame(env, d2, m.value);
      }
    }
  }

  lemma ForeignKeepsBanned(env: Env, db: Db, session: Text, input: AppendInput, freshId: Text, payloadId: Text)
    requires DbInv(env, db) && Admissible(env, ForeignAppend(session, input, freshId, payloadId)) && Indexed(db.events)
    requires NoBannedEvents(env, db)
    ensures NoBannedEvents(env, db.(events :=
              AfterAppend(db.events, Append(env.crypto, db.events, Some(session), input, freshId, payloadId))))
  {
    hide EventsValid, Indexed, Canonical, EventJson, FirstDivergence, RowOk, EventOk, ChainsDense, Records, IsUuid,
         ChainRows, ReadSealerCaptureId, StampOk, HasBannedKey;
    RowsKnown(env, db);
    AppendKeepsChains(env.crypto, db.events, Some(session), input, freshId, payloadId);
  }

  lemma BannedStep(env: Env, s: State, step: Step)
    requires GoodEnv(env) && Inv(env, s) && Admissible(env, step) && Indexed(s.db.events) && NoBannedEvents(env, s.db)
    ensures NoBannedEvents(env, Next(env, s, step).db)
  {
    hide DbInv, Evolves, SealOnce, RecoverOnce, Indexed, GoodEnv, HeldOk, NoBannedEvents, Append, AppendPhaseOf,
         Admissible, MarkSealed, SetStatus, InsertLocked, MarkFailed;
    StepKeeps(env, s, step);
    match step
    case Capture(session, id, orgId, chainId, c) =>
      InsertEvents(s.db, session, id, orgId, chainId, c);
      EvolvedFrame(env, s.db, Next(env, s, step).db);
    case Claim(session, orgId, chainId) => StatusEvents(); EvolvedFrame(env, s.db, Next(env, s, step).db);
    case Load(session, orgId, id) =>
    case AppendHeld(session, cl, worker, sealedAt) =>
      if cl in s.held && AppendPhaseOf(env, s.db.events, session, cl, worker, sealedAt).AppendDone? {
        AppendAddsOwn(env, s.db, session, cl, worker, sealedAt);
      }
    case MarkAppended(session, cl) =>
      MarkEvents(s.db, session, cl.orgId, cl.captureId, env.derive(cl.orgId, cl.captureId));
      EvolvedFrame(env, s.db, Next(env, s, step).db);
    case SealNext(session, orgId, chainId, worker, sealedAt) =>
      SealKeepsBanned(env, s.db, session, orgId, chainId, worker, sealedAt);
    case RecoverHeld(session, cl, worker, sealedAt) =>
      if cl in s.held { RecoverKeepsBanned(env, s.db, session, cl, worker, sealedAt); }
    case Fail(session, orgId, id) =>
      FailEvents(s.db, session, orgId, id);
      EvolvedFrame(env, s.db, Next(env, s, step).db);
    case ForeignAppend(session, input, freshId, payloadId) =>
      ForeignKeepsBanned(env, s.db, session, input, freshId, payloadId);
  }

  lemma InsertEvents(db: Db, session: Text, id: Text, orgId: Text, chainId: Text, c: Content)
    ensures var r := InsertLocked(db, session, id, orgId, chainId, c); r.Some? ==> r.value.events == db.events
  {
  }

  lemma StatusEvents()
    ensures forall db: Db, id, st | id in db.outbox :: SetStatus(db, id, st).events == db.events
  {
  }

  lemma FailEvents(db: Db, session: Text, orgId: Text, id: Text)
    ensures var r := MarkFailed(db, session, orgId, id); r.Some? ==> r.value.events == db.events
  {
  }

  lemma {:induction false} BannedRun(env: Env, run: seq<Step>)
    requires GoodEnv(env) && AllAdmissible(env, run)
    ensures NoBannedEvents(env, Reached(env, run).db)
    decreases |run|
  {
    if |run| > 0 {
      hide NoBannedEvents, Next, Inv, GoodEnv, Evolves, Admissible, AllAdmissible, Indexed, DbInv, Reached;
      ReachedSnoc(env, run);
      BannedRun(env, run[..|run| - 1]);
      BannedStep(env, Reached(env, run[..|run| - 1]), run[|run| - 1]);
    }
  }

  /** In every interleaving a capture that carries one of the keys the outbox does not check is never
      sealed, nor is any later capture of its chain: the builder refuses it at every attempt. */
  lemma BannedCaptureStallsChain(env: Env, run: seq<Step>, id: Text, later: Text)
    requires GoodEnv(env) && AllAdmissible(env, run)
    requires id in Reached(env, run).db.outbox && HasUncheckedKey(Reached(env, run).db.outbox[id].c.redaction)
    requires later in Reached(env, run).db.outbox
    requires var box := Reached(env, run).db.outbox;
             box[later].chainId == box[id].chainId && box[later].seqNo >= box[id].seqNo
    ensures !Reached(env, run).db.outbox[id].status.Sealed?
    ensures !Reached(env, run).db.outbox[later].status.Sealed?
  {
    hide Reached, EventsValid, StampOk, Records, ValidContent, ChainsDense, HasUncheckedKey, HasSqlBannedKey,
         Admissible, GoodEnv;
    BannedRun(env, run);
    var db := Reached(env, run).db;
    assert EventOk(env, db, id) && RowOk(env, db, id) && RowOk(env, db, later);
  }

  /** Every capture passed `captureAuditEvent`, which refuses all eight keys. */
  predicate Guarded(run: seq<Step>)
  {
    forall i | 0 <= i < |run| :: run[i].Capture? ==> !HasBannedKey(run[i].c.redaction)
  }

  /** Such captures come only from calls of `audit_capture_insert_locked` that by-pass
      `captureAuditEvent`: the outbox itself refuses the other four keys, and when every capture passed
      that guard no capture of the run carries a banned key. */
  lemma OnlyUnguardedCapturesStall(env: Env, run: seq<Step>, id: Text)
    requires GoodEnv(env) && AllAdmissible(env, run) && id in Reached(env, run).db.outbox
    ensures !HasSqlBannedKey(Reached(env, run).db.outbox[id].c.redaction)
    ensures Guarded(run) ==> !HasBannedKey(Reached(env, run).db.outbox[id].c.redaction)
  {
    hide GoodEnv, AllAdmissible, SealingProtocol.Run, DbInv, HasBannedKey, HasSqlBannedKey, Guarded;
    RowAdmitted(env, Reached(env, run).db, id);
    if Guarded(run) { GuardedRun(env, run, id); }
  }

  lemma {:induction false} GuardedRun(env: Env, run: seq<Step>, id: Text)
    requires GoodEnv(env) && AllAdmissible(env, run) && Guarded(run) && id in Reached(env, run).db.outbox
    ensures !HasBannedKey(Reached(env, run).db.outbox[id].c.redaction)
    decreases |run|
  {
    hide Next, Inv, DbInv, GoodEnv, Evolves, Admissible, AllAdmissible, Indexed, HasBannedKey, Reached;
    if |run| > 0 {
      ReachedSnoc(env, run);
      var prefix := run[..|run| - 1];
      StepOutbox(env, Reached(env, prefix), run[|run| - 1], id);
      if id in Reached(env, prefix).db.outbox { GuardedRun(env, prefix, id); }
    } else {
      NothingReached(env, run);
    }
  }

  lemma NothingReached(env: Env, run: seq<Step>)
    requires GoodEnv(env) && AllAdmissible(env, run) && |run| == 0
    ensures Reached(env, run).db.outbox == map[]
  {
    hide GoodEnv, Inv;
  }

  lemma RowAdmitted(env: Env, db: Db, id: Text)
    requires DbInv(env, db) && id in db.outbox
    ensures !HasSqlBannedKey(db.outbox[id].c.redaction)
  {
    hide EventsValid, StampOk, EventOk, ChainsDense, HasSqlBannedKey;
    assert RowOk(env, db, id);
  }

  /** A capture keeps its content; a new one has the content of its step. */
  lemma StepOutbox(env: Env, s: State, step: Step, id: Text)
    requires Indexed(s.db.events) && id in Next(env, s, step).db.outbox && Evolves(s.db, Next(env, s, step).db)
    ensures id in s.db.outbox ==> Next(env, s, step).db.outbox[id].c == s.db.outbox[id].c
    ensures id !in s.db.outbox ==> step.Capture? && Next(env, s, step).db.outbox[id].c == step.c
  {
    hide Indexed, AppendPhaseOf, HasSqlBannedKey, Append;
    if id in s.db.outbox {
      assert ClaimedOf(id, Next(env, s, step).db.outbox[id]) == ClaimedOf(id, s.db.outbox[id]);
    }
  }

  // ---------------------------------------------------------------------------------------
  // Which runs close a chain to its tenant
  // ---------------------------------------------------------------------------------------

  /** A foreign append writes to no chain named after another tenant. */
  ghost predicate KeepsToOwnChains(step: Step)
  {
    step.ForeignAppend? ==> forall o, c :: AuditChainId(o, c) == step.input.chainId ==> o == step.input.orgId
  }

  lemma RecoveryBlocksNone(env: Env, db: Db, session: Text, cl: Claimed, worker: Option<Text>, sealedAt: Text)
    requires GoodEnv(env) && DbInv(env, db) && HeldOk(db, cl) && Indexed(db.events)
    ensures NoNewBlock(db, RecoverOnce(env, db, session, cl, worker, sealedAt).0)
  {
    hide AppendPhaseOf, DbInv, GoodEnv, Indexed, AuditChainId, HeldOk, TakenByOther, MarkSealed;
    var a := AppendPhaseOf(env, db.events, session, cl, worker, sealedAt);
    if a.AppendDone? {
      AppendBlocksNone(env, db, session, cl, worker, sealedAt);
      MarkEvents(db.(events := a.events), session, cl.orgId, cl.captureId, a.eventId);
      SameEventsBlock(db, db.(events := a.events), RecoverOnce(env, db, session, cl, worker, sealedAt).0);
    }
  }

  lemma SameEventsBlock(a: Db, b: Db, c: Db)
    requires NoNewBlock(a, b) && (c.events == b.events || c.events == a.events)
    ensures NoNewBlock(a, c)
  {
    hide TakenByOther, AuditChainId;
    forall o, k | Blocked(c, o, k) ensures Blocked(a, o, k) {
      assert c.events == b.events ==> Blocked(b, o, k);
    }
  }

  lemma ForeignBlocksNone(env: Env, db: Db, session: Text, input: AppendInput, freshId: Text, payloadId: Text)
    requires DbInv(env, db) && Indexed(db.events) && KeepsToOwnChains(ForeignAppend(session, input, freshId, payloadId))
    ensures NoNewBlock(db, db.(events :=
              AfterAppend(db.events, Append(env.crypto, db.events, Some(session), input, freshId, payloadId))))
  {
    hide EventsValid, Indexed, Canonical, EventJson, FirstDivergence, RowOk, EventOk, ChainsDense, Records, IsUuid,
         ChainRows, ReadSealerCaptureId, StampOk, NumberTaken, AuditChainId, Stored;
    AppendKeepsChains(env.crypto, db.events, Some(session), input, freshId, payloadId);
    var r := Append(env.crypto, db.events, Some(session), input, freshId, payloadId);
    var db' := db.(events := AfterAppend(db.events, r));
    NewFieldsAre(db.events, input, ChosenId(input, freshId), payloadId);
    forall o, c | Blocked(db', o, c) ensures Blocked(db, o, c) {
      var x :| x in db'.events.table && db'.events.table[x].f.chainId == AuditChainId(o, c)
               && db'.events.table[x].f.orgId != o;
      assert x in db.events.table ==> db.events.table[x] == db'.events.table[x];
    }
  }

  lemma StepBlocksNone(env: Env, s: State, step: Step)
    requires GoodEnv(env) && Inv(env, s) && Indexed(s.db.events) && KeepsToOwnChains(step)
    ensures NoNewBlock(s.db, Next(env, s, step).db)
  {
    hide DbInv, SealOnce, RecoverOnce, Indexed, GoodEnv, HeldOk, Append, AppendPhaseOf, MarkSealed, SetStatus,
         InsertLocked, MarkFailed, TakenByOther, AuditChainId, KeepsToOwnChains;
    match step
    case Capture(session, id, orgId, chainId, c) => InsertEvents(s.db, session, id, orgId, chainId, c);
    case Claim(session, orgId, chainId) => StatusEvents();
    case Load(session, orgId, id) =>
    case AppendHeld(session, cl, worker, sealedAt) =>
      if cl in s.held && AppendPhaseOf(env, s.db.events, session, cl, worker, sealedAt).AppendDone? {
        AppendBlocksNone(env, s.db, session, cl, worker, sealedAt);
      }
    case MarkAppended(session, cl) =>
      MarkEvents(s.db, session, cl.orgId, cl.captureId, env.derive(cl.orgId, cl.captureId));
    case SealNext(session, orgId, chainId, worker, sealedAt) =>
      SealBlocksNone(env, s.db, session, orgId, chainId, worker, sealedAt);
    case RecoverHeld(session, cl, worker, sealedAt) =>
      if cl in s.held { RecoveryBlocksNone(env, s.db, session, cl, worker, sealedAt); }
    case Fail(session, orgId, id) => FailEvents(s.db, session, orgId, id);
    case ForeignAppend(session, input, freshId, payloadId) =>
      ForeignBlocksNone(env, s.db, session, input, freshId, payloadId);
  }

  lemma StillOpen(a: Db, b: Db, o: Text, c: Category)
    requires NoNewBlock(a, b) && !Blocked(a, o, c)
    ensures !Blocked(b, o, c)
  {
    hide Blocked;
  }

  lemma NoEventsReached(env: Env, run: seq<Step>)
    requires GoodEnv(env) && AllAdmissible(env, run) && |run| == 0
    ensures Reached(env, run).db.events == NO_EVENTS
  {
    hide GoodEnv, Inv;
  }

  /** While no tenant writes to a chain named after another, no chain is ever closed to its own. */
  lemma {:induction false} OwnChainsStayOpen(env: Env, run: seq<Step>, o: Text, c: Category)
    requires GoodEnv(env) && AllAdmissible(env, run) && forall i | 0 <= i < |run| :: KeepsToOwnChains(run[i])
    ensures !Blocked(Reached(env, run).db, o, c)
    decreases |run|
  {
    hide Next, Inv, GoodEnv, Evolves, Admissible, AllAdmissible, Indexed, DbInv, KeepsToOwnChains, Reached,
         NoNewBlock, AuditChainId;
    if |run| > 0 {
      ReachedSnoc(env, run);
      var prefix := run[..|run| - 1];
      var t := Reached(env, prefix);
      StepBlocksNone(env, t, run[|run| - 1]);
      OwnChainsStayOpen(env, prefix, o, c);
      StillOpen(t.db, Reached(env, run).db, o, c);
    } else {
      NoEventsReached(env, run);
    }
  }

  // ---------------------------------------------------------------------------------------
  // Two runs that stall
  // ---------------------------------------------------------------------------------------

  const TENANT := Key("11111111-1111-4111-8111-111111111111")
  const SUBJECT := Key("22222222-2222-4222-8222-222222222222")
  const CAPTURE := Key("33333333-3333-4333-8333-333333333333")

  function SampleContent(redaction: Json): Content
  {
    Content(Run, Key("passthrough.invoked"), Key("4"), Key("runtime_event"), SUBJECT, Key("2026-01-01T00:00:00.000Z"),
            [], None, None, Key("chain"), 1, redaction, Key("hmac_internal"), None, None, BestEffort)
  }

  function SampleCapture(redaction: Json): Step
  {
    Capture(TENANT, CAPTURE, TENANT, AuditChainId(TENANT, Run), SampleContent(redaction))
  }

  /** An environment the sample can run in. */
  ghost predicate SampleEnv(env: Env)
  {
    GoodEnv(env) && Known(env, TENANT, CAPTURE) && InColumn(env, TENANT) && InColumn(env, SUBJECT)
  }

  lemma SampleAdmissible(env: Env, redaction: Json)
    requires SampleEnv(env) && WellFormed(redaction) && Plain(redaction)
    ensures Admissible(env, SampleCapture(redaction))
  {
    hide GoodEnv, Key;
  }

  /** The sample capture is taken as the first of its chain, and is the next to seal. */
  lemma SampleTaken(env: Env, s: State, redaction: Json)
    requires Indexed(s.db.events) && s.db.chains == map[] && s.db.outbox == map[]
    requires AdmittedContent(SampleContent(redaction))
    ensures var db, chain := Next(env, s, SampleCapture(redaction)).db, AuditChainId(TENANT, Run);
            && db.events == s.db.events && Claimable(db, chain, CAPTURE) && db.chains[chain].orgId == TENANT
            && db.outbox[CAPTURE].orgId == TENANT && db.outbox[CAPTURE].c == SampleContent(redaction)
  {
    hide Indexed, AdmittedContent;
    assert |TENANT| == 36;
  }

  lemma ReachedOne(env: Env, step: Step)
    requires GoodEnv(env) && Admissible(env, step)
    ensures AllAdmissible(env, [step]) && Indexed(INITIAL.db.events) && Reached(env, [step]) == Next(env, INITIAL, step)
  {
    hide Next, GoodEnv, Admissible, Inv, Evolves;
    assert [step][..0] == [];
    InitialInv(env);
    assert SealingProtocol.Run(env, INITIAL, []) == INITIAL;
  }

  lemma MessagesAdmitted()
    ensures var r := Obj([Member(Key("messages"), Arr([]))]);
            WellFormed(r) && Plain(r) && HasUncheckedKey(r) && AdmittedContent(SampleContent(r))
  {
    var r := Obj([Member(Key("messages"), Arr([]))]);
    assert WellFormed(Arr([])) && Plain(Arr([]));
    assert Find(r.members, Key("messages")) == Some(Arr([]));
    assert Key("messages")[0] != Key("response")[0];
  }

  /** A capture with a `messages` key is taken, and its seal throws. */
  lemma MessagesCaptureStalls(env: Env, worker: Option<Text>, now: Text)
    requires SampleEnv(env)
    ensures var run, chain := [SampleCapture(Obj([Member(Key("messages"), Arr([]))]))], AuditChainId(TENANT, Run);
            && AllAdmissible(env, run) && Indexed(Reached(env, run).db.events)
            && var db := Reached(env, run).db;
            && Claimable(db, chain, CAPTURE) && SealOnce(env, db, TENANT, TENANT, chain, worker, now) == (db, Threw)
  {
    hide GoodEnv, Key, WellFormed, Plain, HasUncheckedKey, HasSqlBannedKey, AdmittedContent, Next, Admissible,
         Indexed, DbInv, Claimable, SealOnce, SealingProtocol.Run, Blocked;
    var r := Obj([Member(Key("messages"), Arr([]))]);
    MessagesAdmitted();
    SampleAdmissible(env, r);
    ReachedOne(env, SampleCapture(r));
    SampleTaken(env, INITIAL, r);
    InvIndexed(env, Reached(env, [SampleCapture(r)]));
    SealsExactly(env, Reached(env, [SampleCapture(r)]).db, TENANT, AuditChainId(TENANT, Run), CAPTURE, worker, now);
  }

  const OTHER := Key("44444444-4444-4444-8444-444444444444")
  const FOREIGN := Key("55555555-5555-4555-8555-555555555555")

  /** Another tenant's session appends to the chain of the sample's tenant. */
  function TrespassInput(): AppendInput
  {
    AppendInput(OTHER, AuditChainId(TENANT, Run), Key("passthrough.invoked"), Key("4"), Key("runtime_event"), SUBJECT,
                Key("2026-01-01T00:00:00.000Z"), [], None, None, Key("chain"), 1, Obj([]), None, None)
  }

  function Trespass(): Step { ForeignAppend(OTHER, TrespassInput(), FOREIGN, []) }

  ghost predicate TrespassEnv(env: Env)
  {
    && SampleEnv(env) && InColumn(env, OTHER) && InColumn(env, FOREIGN)
    && forall o, c | Known(env, o, c) :: env.derive(o, c) != FOREIGN
  }

  lemma TrespassWrites(env: Env)
    requires TrespassEnv(env)
    ensures Admissible(env, Trespass()) && Indexed(NO_EVENTS)
    ensures var r := Append(env.crypto, NO_EVENTS, Some(OTHER), TrespassInput(), FOREIGN, []);
            r.Appended? && r.row.f.chainId == AuditChainId(TENANT, Run) && r.row.f.orgId == OTHER
  {
    hide GoodEnv, Canonical, EventJson, Known;
    assert |OTHER| == 36 && ChainRows(NO_EVENTS, AuditChainId(TENANT, Run)) == [];
    EventCanonical(env.crypto, NewFields(NO_EVENTS, TrespassInput(), FOREIGN, []));
  }

  /** After such an append the tenant's own capture is taken, and its seal throws. */
  lemma TrespassedChainStalls(env: Env, worker: Option<Text>, now: Text)
    requires TrespassEnv(env)
    ensures var run, chain := [Trespass(), SampleCapture(Obj([]))], AuditChainId(TENANT, Run);
            && AllAdmissible(env, run) && Indexed(Reached(env, run).db.events)
            && var db := Reached(env, run).db;
            && Claimable(db, chain, CAPTURE) && SealOnce(env, db, TENANT, TENANT, chain, worker, now) == (db, Threw)
  {
    hide GoodEnv, Key, Next, Admissible, Indexed, DbInv, Claimable, SealOnce, SealingProtocol.Run, TrespassEnv, Blocked,
         HasSqlBannedKey, HasBannedKey, AdmittedContent;
    var run := [Trespass(), SampleCapture(Obj([]))];
    TrespassState(env);
    var s := Next(env, INITIAL, Trespass());
    SampleAdmissible(env, Obj([]));
    NothingBanned();
    ReachedTwo(env, Trespass(), SampleCapture(Obj([])));
    InvIndexed(env, Reached(env, run));
    SampleTaken(env, s, Obj([]));
    SealsExactly(env, Reached(env, run).db, TENANT, AuditChainId(TENANT, Run), CAPTURE, worker, now);
  }

  lemma NothingBanned()
    ensures AdmittedContent(SampleContent(Obj([]))) && WellFormed(Obj([])) && Plain(Obj([]))
  {
  }

  lemma TrespassState(env: Env)
    requires TrespassEnv(env)
    ensures SampleEnv(env) && Admissible(env, Trespass()) && Indexed(INITIAL.db.events)
    ensures var s := Next(env, INITIAL, Trespass());
            && Indexed(s.db.events) && s.db.chains == map[] && s.db.outbox == map[]
            && forall db: Db | db.events == s.db.events :: Blocked(db, TENANT, Run)
  {
    hide GoodEnv, Append, Indexed, Known;
    TrespassWrites(env);
    assert TENANT[0] != OTHER[0];
    ReachedOne(env, Trespass());
    InvIndexed(env, Reached(env, [Trespass()]));
    var r := Append(env.crypto, NO_EVENTS, Some(OTHER), TrespassInput(), FOREIGN, []);
    var s := Next(env, INITIAL, Trespass());
    assert r.row.f.id in s.db.events.table && s.db.events.table[r.row.f.id] == r.row;
  }

  lemma ReachedTwo(env: Env, a: Step, b: Step)
    requires GoodEnv(env) && Admissible(env, a) && Admissible(env, b)
    ensures AllAdmissible(env, [a, b]) && Indexed(INITIAL.db.events) && Indexed(Next(env, INITIAL, a).db.events)
    ensures Reached(env, [a, b]) == Next(env, Next(env, INITIAL, a), b)
  {
    hide Next, GoodEnv, Admissible, Inv, Evolves;
    ReachedOne(env, a);
    InvIndexed(env, Reached(env, [a]));
    assert [a, b][..1] == [a];
  }
}
