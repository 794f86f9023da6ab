/** The sealer's runner over a shared database: one transaction per seal, the bounded recovery of
    captures stuck in `sealing`, the sweep and the scan tick.

    Between its own statements other sessions may commit anything the protocol allows (`Others`), and
    any statement, a COMMIT included, may fail (`Fault`). Every commit, its own or another's, is a
    step of the protocol's state machine. */
module SealerRunner {
  import opened Wrappers
  import opened Utf16
  import opened CanonicalJson
  import opened AuditAppend
  import opened Outbox
  import opened SealingProtocol
  import opened SealingProgress

  /** The exceptions a recovery attempt can raise, as `classifyError` tells them apart. */
  datatype Thrown = DivergentContent | LoaderTenantContext | OtherError

  datatype ErrorClass = ClassDivergent | ClassTenantContext | ClassTransient

  function ClassifyError(e: Thrown): ErrorClass
  {
    match e
    case DivergentContent => ClassDivergent
    case LoaderTenantContext => ClassTenantContext
    case OtherError => ClassTransient
  }

  datatype Attempt = AttemptSealed(eventId: Text) | AttemptAbsent | AttemptThrew(error: Thrown)

  /** What happens to the statements that record a failure: the checkout, those up to mark_failed, and the
      COMMIT, whose acknowledgement may be lost though it landed. */
  datatype FailScript = FailScript(connects: bool, executes: bool, acknowledged: bool, landed: bool)

  /** The failure is recorded if the row can be failed at all. */
  predicate Recorded(script: FailScript, orgId: Text)
  {
    script.connects && IsUuid(orgId) && script.executes && (script.acknowledged || script.landed)
  }

  /** The outcome is reported although the failure was not recorded: a lost COMMIT is enough. */
  lemma UnrecordedFailure(orgId: Text)
    ensures var script := FailScript(true, true, false, false); script.connects && !Recorded(script, orgId)
  {
  }

  /** `Escaped`: no connection could be had to record the failure, and the exception leaves the sweep. */
  datatype Outcome =
    | RowSealed(eventId: Text) | RowSkipped | RowFailedDivergent | RowFailedMaxRetries | RowTenantError | Escaped

  datatype SweepSummary = SweepSummary(staleDetected: nat, recovered: nat, failed: nat, skipped: nat, errored: nat)

  datatype TickSummary = TickSummary(orgsScanned: nat, sealed: nat, idleChains: nat, staleRecovered: nat,
                                     staleFailed: nat)

  /** The steps added to a log contain no mark_failed. */
  predicate AddsNoFail(a: seq<Step>, b: seq<Step>)
  {
    |a| <= |b| && b[..|a|] == a && forall i | |a| <= i < |b| :: !b[i].Fail?
  }

  lemma AddsNoFailTransitive(a: seq<Step>, b: seq<Step>, c: seq<Step>)
    requires AddsNoFail(a, b) && AddsNoFail(b, c)
    ensures AddsNoFail(a, c)
  {
    assert c[..|a|] == c[..|b|][..|a|];
  }

  lemma AddsAtEnd(a: seq<Step>, b: seq<Step>)
    requires AddsNoFail(a, b)
    ensures a <= b
  {
  }

  lemma AddsOne(a: seq<Step>, step: Step)
    requires !step.Fail?
    ensures AddsNoFail(a, a + [step]) && Seals(a + [step]) == Seals(a) + if step.SealNext? then 1 else 0
  {
    SealsSnoc(a, step);
  }

  /** The one-transaction seals in a log. */
  function Seals(steps: seq<Step>): nat
  {
    if |steps| == 0 then 0 else Seals(steps[..|steps| - 1]) + if steps[|steps| - 1].SealNext? then 1 else 0
  }

  lemma SealsSnoc(steps: seq<Step>, step: Step)
    ensures Seals(steps + [step]) == Seals(steps) + if step.SealNext? then 1 else 0
  {
    assert (steps + [step])[..|steps|] == steps;
  }

  /** A log that only grew has no fewer seals. */
  lemma {:induction false} SealsGrow(a: seq<Step>, b: seq<Step>)
    requires a <= b
    ensures Seals(a) <= Seals(b)
  {
    if |a| < |b| {
      SealsGrow(a, b[..|b| - 1]);
    } else {
      assert a == b;
    }
  }

  /** The capture is sealed into its derived event. */
  predicate SealedUnder(env: Env, db: Db, orgId: Text, id: Text)
  {
    id in db.outbox && db.outbox[id].orgId == orgId && db.outbox[id].status == Sealed(env.derive(orgId, id))
  }

  predicate IsSealing(db: Db, orgId: Text, id: Text)
  {
    id in db.outbox && db.outbox[id].orgId == orgId && db.outbox[id].status == Sealing
  }

  /** Every attempt to seal the capture throws. */
  predicate Unsealable(db: Db, id: Text)
  {
    id in db.outbox && Refused(db, id)
  }

  /** What an attempt that meets no divergent content does when nothing interferes. */
  predicate Undisturbed(before: Db, orgId: Text, id: Text, r: Attempt, after: Db)
  {
    if !IsSealing(before, orgId, id) then r == AttemptAbsent && after == before
    else if Unsealable(before, id) then r == AttemptThrew(OtherError) && after == before
    else r.AttemptSealed?
  }

  predicate HasFailed(db: Db, id: Text)
  {
    id in db.outbox && db.outbox[id].status == Failed
  }

  /** What makes even a clean recovery attempt throw. */
  predicate Obstacle(db: Db, id: Text)
  {
    Unsealable(db, id) || HasFailed(db, id)
  }

  /** The counter an outcome belongs to. */
  datatype Counter = CountRecovered | CountFailed | CountSkipped | CountErrored

  /** Which outcomes a counter is about. */
  predicate Belongs(o: Outcome, c: Counter)
  {
    match c
    case CountRecovered => o.RowSealed?
    case CountFailed => o.RowFailedDivergent? || o.RowFailedMaxRetries?
    case CountSkipped => o.RowSkipped?
    case CountErrored => o.RowTenantError? || o.Escaped?
  }

  function CounterOf(o: Outcome): (c: Counter)
    ensures forall d :: Belongs(o, d) <==> d == c
  {
    match o
    case RowSealed(_) => CountRecovered
    case RowFailedDivergent => CountFailed
    case RowFailedMaxRetries => CountFailed
    case RowSkipped => CountSkipped
    case _ => CountErrored
  }

  /** The rows counted under a counter. */
  function Under(os: seq<Outcome>, c: Counter): set<nat>
  {
    set i: nat | i < |os| && Belongs(os[i], c)
  }

  predicate Counts(sum: SweepSummary, os: seq<Outcome>)
  {
    && sum.recovered == |Under(os, CountRecovered)| && sum.failed == |Under(os, CountFailed)|
    && sum.skipped == |Under(os, CountSkipped)| && sum.errored == |Under(os, CountErrored)|
    && sum.recovered + sum.failed + sum.skipped + sum.errored == |os|
  }

  function Tally(sum: SweepSummary, o: Outcome): SweepSummary
  {
    match CounterOf(o)
    case CountRecovered => sum.(recovered := sum.recovered + 1)
    case CountFailed => sum.(failed := sum.failed + 1)
    case CountSkipped => sum.(skipped := sum.skipped + 1)
    case CountErrored => sum.(errored := sum.errored + 1)
  }

  lemma UnderStep(os: seq<Outcome>, o: Outcome, c: Counter)
    ensures |Under(os + [o], c)| == |Under(os, c)| + if CounterOf(o) == c then 1 else 0
  {
    assert Under(os + [o], c) == Under(os, c) + if CounterOf(o) == c then {|os|} else {};
  }

  lemma CountsStep(sum: SweepSummary, os: seq<Outcome>, o: Outcome)
    requires Counts(sum, os)
    ensures Counts(Tally(sum, o), os + [o])
  {
    hide CounterOf, Under;
    UnderStep(os, o, CountRecovered);
    UnderStep(os, o, CountFailed);
    UnderStep(os, o, CountSkipped);
    UnderStep(os, o, CountErrored);
  }

  lemma NothingCounted(env: Env, db: Db, orgId: Text, n: nat)
    ensures Counts(SweepSummary(n, 0, 0, 0, 0), []) && AllAccounted(env, db, orgId, [], [])
  {
    assert Under([], CountRecovered) == {} && Under([], CountFailed) == {};
    assert Under([], CountSkipped) == {} && Under([], CountErrored) == {};
  }

  /** What one swept row has come to, given the outcome it was counted under. */
  predicate Accounted(env: Env, db: Db, orgId: Text, id: Text, o: Outcome)
  {
    && (o.RowSealed? ==> SealedUnder(env, db, orgId, id))
    && (o.RowSkipped? ==> id in db.outbox && (db.outbox[id].status.Sealed? || db.outbox[id].status == Failed))
    && !o.RowFailedDivergent? && !o.Escaped?
  }

  predicate AllAccounted(env: Env, db: Db, orgId: Text, ids: seq<Text>, os: seq<Outcome>)
  {
    |ids| == |os| && forall i | 0 <= i < |ids| :: Accounted(env, db, orgId, ids[i], os[i])
  }

  lemma AccountedStays(env: Env, db: Db, db': Db, orgId: Text, ids: seq<Text>, os: seq<Outcome>)
    requires AllAccounted(env, db, orgId, ids, os) && Evolves(db, db')
    ensures AllAccounted(env, db', orgId, ids, os)
  {
    forall i | 0 <= i < |ids| ensures Accounted(env, db', orgId, ids[i], os[i]) {
      assert Accounted(env, db, orgId, ids[i], os[i]);
    }
  }

  lemma AccountedAdds(env: Env, db: Db, orgId: Text, ids: seq<Text>, os: seq<Outcome>, id: Text, o: Outcome)
    requires AllAccounted(env, db, orgId, ids, os) && Accounted(env, db, orgId, id, o)
    ensures AllAccounted(env, db, orgId, ids + [id], os + [o])
  {
    hide Accounted;
  }

  /** A row that was being sealed and no longer is has reached a final state. */
  lemma RowAccounted(env: Env, db0: Db, db: Db, orgId: Text, id: Text, o: Outcome)
    requires IsSealing(db0, orgId, id) && Evolves(db0, db)
    requires o.RowSealed? ==> SealedUnder(env, db, orgId, id)
    requires o.RowSkipped? ==> !IsSealing(db, orgId, id)
    requires !o.RowFailedDivergent? && !o.Escaped?
    ensures Accounted(env, db, orgId, id, o)
  {
    assert id in db.outbox && ClaimedOf(id, db.outbox[id]) == ClaimedOf(id, db0.outbox[id]);
  }

  /** A recovery of `id` met an event at the derived id with different immutable content. */
  ghost predicate SawDivergence(env: Env, id: Text)
    requires GoodEnv(env)
  {
    exists run, session, cl: Claimed, worker, now ::
      DivergedOn(env, run, session, cl, worker, now) && cl.captureId == id
  }

  ghost predicate DivergedOn(env: Env, run: seq<Step>, session: Text, cl: Claimed, worker: Option<Text>, now: Text)
    requires GoodEnv(env)
  {
    && AllAdmissible(env, run) && cl in Reached(env, run).held && Indexed(Reached(env, run).db.events)
    && var a := AppendPhaseOf(env, Reached(env, run).db.events, session, cl, worker, now);
    a.AppendFailed? && a.error.Divergent?
  }

  /** When only this protocol writes derived ids, no recovery ever meets divergent content. */
  lemma NeverSeesDivergence(env: Env, id: Text)
    requires GoodEnv(env)
    ensures !SawDivergence(env, id)
  {
    hide Reached, AppendPhaseOf, Indexed, GoodEnv, AllAdmissible;
    forall run, session, cl: Claimed, worker, now | DivergedOn(env, run, session, cl, worker, now) ensures false {
      HeldNeverDivergent(env, run, session, cl, worker, now);
    }
  }

  lemma ReachedExtends(env: Env, log: seq<Step>, step: Step)
    requires GoodEnv(env) && AllAdmissible(env, log) && Admissible(env, step) && Indexed(Reached(env, log).db.events)
    ensures AllAdmissible(env, log + [step])
    ensures Reached(env, log + [step]) == Next(env, Reached(env, log), step)
    ensures Evolves(Reached(env, log).db, Reached(env, log + [step]).db)
    ensures Indexed(Reached(env, log + [step]).db.events)
  {
    hide Next, Evolves, Indexed, GoodEnv, Admissible, Inv;
    var next := log + [step];
    assert next[..|next| - 1] == log;
    StepKeeps(env, Reached(env, log), step);
    InvIndexed(env, Reached(env, next));
  }

  class Runner {
    const env: Env
    var db: Db
    /** Every committed step, by anyone, and the state they lead to. */
    ghost var log: seq<Step>
    ghost var s: State
    /** The commits of this runner. */
    ghost var own: seq<Step>
    /** No statement has failed and no other session has committed anything so far. */
    ghost var quiet: bool

    ghost predicate Valid()
      reads this
    {
      && GoodEnv(env) && AllAdmissible(env, log) && s == Reached(env, log) && db == s.db
      && Indexed(db.events)
    }

    constructor (e: Env)
      requires GoodEnv(e)
      ensures Valid() && env == e && db == EMPTY_DB && own == [] && quiet
    {
      env := e;
      db := EMPTY_DB;
      log := [];
      s := INITIAL;
      own := [];
      quiet := true;
    }

    lemma ValidInv()
      requires Valid()
      ensures Inv(env, s) && DbInv(env, db)
    {
    }

    /** Any statement may fail. */
    method Fault() returns (failed: bool)
      modifies this`quiet
      ensures if failed then !quiet else quiet == old(quiet)
    {
      failed := *;
      if failed { quiet := false; }
    }

    /** Other sessions may commit any admissible steps here. Callers rely on the contract alone, so
        what they prove holds whatever the others do; taking no step is one of the possibilities. */
    method Others()
      requires Valid()
      modifies this`db, this`log, this`s, this`quiet
      ensures Valid() && Evolves(old(db), db) && old(s.held) <= s.held
      ensures quiet ==> old(quiet) && db == old(db) && s == old(s)
    {
      EvolvesReflexive(db);
    }

    method Commit(next: Db, ghost step: Step)
      requires Valid() && Admissible(env, step) && Next(env, s, step).db == next
      modifies this`db, this`log, this`s, this`own
      ensures Valid() && db == next && s == Next(env, old(s), step) && own == old(own) + [step]
      ensures Evolves(old(db), db)
    {
      hide Next, Evolves, Indexed, GoodEnv, Admissible, Inv, Reached, AllAdmissible;
      ReachedExtends(env, log, step);
      db := next;
      s := Next(env, s, step);
      log := log + [step];
      own := own + [step];
    }

    /** A load commits nothing; the runner remembers what it read. */
    ghost method Remember(step: Step)
      requires Valid() && step.Load? && Admissible(env, step)
      modifies this`log, this`s
      ensures Valid() && s == Next(env, old(s), step)
    {
      hide Evolves, Indexed, GoodEnv, Admissible, Inv, Reached, AllAdmissible;
      ReachedExtends(env, log, step);
      log := log + [step];
      s := Next(env, s, step);
    }

    // -------------------------------------------------------------------------------------
    // Recovery of one stale capture
    // -------------------------------------------------------------------------------------

    /** Build the sealing event and append it, in the tenant's session. */
    method RebuildAndAppend(orgId: Text, cl: Claimed, worker: Option<Text>, now: Text) returns (a: AppendPhase)
      requires Indexed(db.events) && ValidContent(cl.c)
      ensures a == AppendPhaseOf(env, db.events, orgId, cl, worker, now)
    {
      hide Indexed, ValidContent, Append, Build, AfterAppend;
      var event := Build(env, cl, worker, now);
      if event.None? { return BuilderRefused; }
      BuiltWellFormed(env, cl, worker, now);
      var store := new AuditStore();
      store.events := db.events;
      var out := store.AuditAppend(env.crypto, Some(orgId), event.value, [], []);
      if out.Rejected? { return AppendFailed(out.error); }
      return AppendDone(store.events, out.row.f.id);
    }

    /** The second half of a recovery attempt: append, mark_sealed, COMMIT. */
    method AppendAndMark(orgId: Text, cl: Claimed, worker: Option<Text>, now: Text)
      returns (r: Attempt, ghost clean: bool, ghost raced: bool)
      requires Valid() && cl in s.held && cl.orgId == orgId
      modifies this`db, this`log, this`s, this`own, this`quiet
      ensures Valid() && Evolves(old(db), db) && AddsNoFail(old(own), own) && !r.AttemptAbsent?
      ensures r.AttemptSealed? ==>
                SealedUnder(env, db, orgId, cl.captureId) && r.eventId == env.derive(orgId, cl.captureId)
      ensures r.AttemptThrew? && r.error == DivergentContent ==> SawDivergence(env, cl.captureId)
      ensures r.AttemptThrew? && r.error == OtherError && clean ==> Unsealable(db, cl.captureId) || raced
      ensures raced ==> HasFailed(db, cl.captureId)
      ensures quiet ==> old(quiet)
      ensures r != AttemptThrew(LoaderTenantContext)
      ensures quiet && IsSealing(old(db), orgId, cl.captureId) && r != AttemptThrew(DivergentContent) ==>
                Undisturbed(old(db), orgId, cl.captureId, r, db)
    {
      hide Next, Evolves, Indexed, GoodEnv, Admissible, Inv, Reached, AllAdmissible, DbInv, AppendPhaseOf, HasBannedKey,
           MarkSealed, HeldOk, IsUuid;
      EvolvesReflexive(db);
      ValidInv();
      HeldIs(env, s, cl);
      HeldContent(env, db, cl);
      var failed := Fault();
      if failed { return AttemptThrew(OtherError), false, false; }
      var a := RebuildAndAppend(orgId, cl, worker, now);
      if !a.AppendDone? {
        if a.AppendFailed? && a.error.Divergent? {
          MetDivergence(env, log, orgId, cl, worker, now);
          return AttemptThrew(DivergentContent), true, false;
        }
        ThrowsIfRefused(env, db, cl, worker, now);
        return AttemptThrew(OtherError), true, false;
      }
      failed := Fault();
      if failed { return AttemptThrew(OtherError), false, false; }
      var marked := MarkSealed(db.(events := a.events), orgId, orgId, cl.captureId, a.eventId);
      RecoversExactly(env, db, cl, worker, now);
      if marked.None? {
        return AttemptThrew(OtherError), true, HasFailed(db, cl.captureId);
      }
      OwnAdmissible(env, RecoverHeld(orgId, cl, worker, now));
      RecoverStep(env, s, orgId, cl, worker, now);
      SealedAfter(env, db, cl, marked.value);
      failed := Fault();
      // When the acknowledgement of a COMMIT is lost, it may still have landed.
      var landed: bool := *;
      if !failed || landed {
        Commit(marked.value, RecoverHeld(orgId, cl, worker, now));
      }
      if failed { return AttemptThrew(OtherError), false, false; }
      return AttemptSealed(a.eventId), true, false;
    }

    /** `attemptRecovery`: load, append, mark_sealed in one transaction of its own. `setting` is what
        app.org_id reads back in it; `clean` says that no statement failed, `raced` that another session
        failed the capture after the load. The tenant-context error is thrown for a setting that is not the
        tenant, and for nothing else; undisturbed, the attempt seals a capture in `sealing` that can be
        sealed. */
    method AttemptRecovery(orgId: Text, captureId: Text, worker: Option<Text>, now: Text, setting: Text)
      returns (r: Attempt, ghost clean: bool, ghost raced: bool)
      requires Valid()
      modifies this`db, this`log, this`s, this`own, this`quiet
      ensures Valid() && Evolves(old(db), db) && AddsNoFail(old(own), own)
      ensures r.AttemptSealed? ==> SealedUnder(env, db, orgId, captureId) && r.eventId == env.derive(orgId, captureId)
      ensures r.AttemptAbsent? ==> !IsSealing(db, orgId, captureId)
      ensures r.AttemptThrew? && r.error == DivergentContent ==> SawDivergence(env, captureId)
      ensures r.AttemptThrew? && r.error == OtherError && clean && IsUuid(orgId) ==> Unsealable(db, captureId) || raced
      ensures raced ==> HasFailed(db, captureId)
      ensures setting == orgId ==> r != AttemptThrew(LoaderTenantContext)
      ensures setting != orgId ==> r == AttemptThrew(LoaderTenantContext) || r == AttemptThrew(OtherError)
      ensures quiet ==> old(quiet)
      ensures quiet && IsUuid(orgId) && setting != orgId ==> r == AttemptThrew(LoaderTenantContext) && db == old(db)
      ensures quiet && IsUuid(orgId) && setting == orgId && r != AttemptThrew(DivergentContent) ==>
                Undisturbed(old(db), orgId, captureId, r, db)
    {
      hide Next, Evolves, Indexed, GoodEnv, Admissible, Inv, Reached, AllAdmissible, DbInv, LoadSealing, IsUuid,
           IsSealing, HasFailed, SealedUnder, SawDivergence, Unsealable;
      EvolvesReflexive(db);
      var failed := Fault();
      if failed || !IsUuid(orgId) {
        return AttemptThrew(OtherError), !failed, false;
      }
      Others();
      ghost var db1 := db;
      failed := Fault();
      if failed { return AttemptThrew(OtherError), false, false; }
      var load := LoadSealing(db, setting, orgId, captureId);
      LoadMeans(db, setting, orgId, captureId);
      UuidIsText(orgId);
      if load.TenantContextError? {
        return AttemptThrew(LoaderTenantContext), true, false;
      }
      if load.Absent? {
        failed := Fault();
        if failed { return AttemptThrew(OtherError), false, false; }
        return AttemptAbsent, true, false;
      }
      ghost var step := Load(setting, orgId, captureId);
      OwnAdmissible(env, step);
      LoadHolds(env, s, step);
      Remember(step);
      Others();
      EvolvesTransitive(old(db), db1, db);
      ghost var db2 := db;
      r, clean, raced := AppendAndMark(orgId, load.cl, worker, now);
      EvolvesTransitive(old(db), db2, db);
    }

    /** `markFailedTerminal`: a fresh transaction whose own failure is logged and swallowed; only a
        connection that cannot be had makes the exception escape. The row is failed exactly when the
        script records it and, when the statement comes to it, mark_failed accepts it. */
    method MarkFailedTerminal(orgId: Text, captureId: Text, script: FailScript) returns (escaped: bool)
      requires Valid()
      modifies this`db, this`log, this`s, this`own, this`quiet
      ensures Valid() && Evolves(old(db), db)
      ensures escaped <==> !script.connects
      ensures own == old(own) || own == old(own) + [Fail(orgId, orgId, captureId)]
      ensures own != old(own) ==> Recorded(script, orgId) && HasFailed(db, captureId) && !HasFailed(old(db), captureId)
      ensures own == old(own) && Recorded(script, orgId) ==> MarkFailed(db, orgId, orgId, captureId).None?
      ensures quiet ==> old(quiet) && !escaped
      ensures quiet && IsUuid(orgId) && MarkFailed(old(db), orgId, orgId, captureId).Some? ==> HasFailed(db, captureId)
    {
      hide Next, Evolves, Indexed, GoodEnv, Admissible, Inv, Reached, AllAdmissible, DbInv, MarkFailed, IsUuid;
      EvolvesReflexive(db);
      quiet := quiet && script.connects && script.executes && script.acknowledged;
      escaped := !script.connects;
      if escaped { return; }
      Others();
      ghost var db1 := db;
      FailStep(env, old(db), db, s, orgId, captureId);
      if !script.executes || !IsUuid(orgId) { return; }
      var marked := MarkFailed(db, orgId, orgId, captureId);
      if marked.None? { return; }
      if !script.acknowledged && !script.landed { return; }
      OwnAdmissible(env, Fail(orgId, orgId, captureId));
      Commit(marked.value, Fail(orgId, orgId, captureId));
      EvolvesTransitive(old(db), db1, db);
    }

    /** The failed outcome is reported exactly when a connection was had, recorded or not. */
    method GiveUp(orgId: Text, captureId: Text, failed: Outcome, script: FailScript) returns (o: Outcome)
      requires Valid()
      modifies this`db, this`log, this`s, this`own, this`quiet
      ensures Valid() && Evolves(old(db), db)
      ensures o == if script.connects then failed else Escaped
      ensures own != old(own) ==> Recorded(script, orgId)
      ensures own == old(own) && Recorded(script, orgId) ==> MarkFailed(db, orgId, orgId, captureId).None?
      ensures own == old(own) || own == old(own) + [Fail(orgId, orgId, captureId)]
      ensures HasFailed(old(db), captureId) ==> own == old(own)
      ensures quiet ==> old(quiet) && o == failed
      ensures quiet && IsUuid(orgId) && IsSealing(old(db), orgId, captureId) ==> HasFailed(db, captureId)
    {
      var escaped := MarkFailedTerminal(orgId, captureId, script);
      return if escaped then Escaped else failed;
    }

    /** The backoff, then one attempt. */
    method NextAttempt(backoff: bool, orgId: Text, captureId: Text, worker: Option<Text>, setting: Text)
      returns (r: Attempt, ghost clean: bool)
      requires Valid()
      modifies this`db, this`log, this`s, this`own, this`quiet
      ensures Valid() && Evolves(old(db), db) && AddsNoFail(old(own), own)
      ensures r.AttemptSealed? ==> SealedUnder(env, db, orgId, captureId) && r.eventId == env.derive(orgId, captureId)
      ensures r.AttemptAbsent? ==> !IsSealing(db, orgId, captureId)
      ensures r.AttemptThrew? && r.error == DivergentContent ==> SawDivergence(env, captureId)
      ensures r.AttemptThrew? && r.error == OtherError && clean && IsUuid(orgId) ==>
                Unsealable(db, captureId) || HasFailed(db, captureId)
      ensures Obstacle(old(db), captureId) ==> Obstacle(db, captureId)
      ensures setting == orgId ==> r != AttemptThrew(LoaderTenantContext)
      ensures setting != orgId ==> r == AttemptThrew(LoaderTenantContext) || r == AttemptThrew(OtherError)
      ensures quiet ==> old(quiet)
      ensures quiet && IsUuid(orgId) && setting != orgId ==> r == AttemptThrew(LoaderTenantContext) && db == old(db)
      ensures quiet && IsUuid(orgId) && setting == orgId && r != AttemptThrew(DivergentContent) ==>
                Undisturbed(old(db), orgId, captureId, r, db)
    {
      hide Next, Evolves, Indexed, GoodEnv, Admissible, Inv, Reached, AllAdmissible, DbInv, SawDivergence, AddsNoFail,
           IsSealing, HasFailed, SealedUnder, Unsealable, IsUuid;
      EvolvesReflexive(db);
      if backoff { Others(); }
      ghost var db1 := db;
      var now: Text := *;
      ghost var raced;
      r, clean, raced := AttemptRecovery(orgId, captureId, worker, now, setting);
      EvolvesTransitive(old(db), db1, db);
      ObstacleStays(old(db), db, captureId);
    }

    /** `recoverStaleRow`: at most `maxRetries` attempts, each in its own transaction. `settings` is what
        app.org_id reads back in each, `errors` what the attempts threw, `tries` counts the attempts made,
        `cleanTries` those in which no statement failed.

        The first tenant-context error ends the call without failing the row, the first divergence ends it
        with a failure, and any other error is retried. Undisturbed, a stale row that can be sealed is
        sealed and one that cannot is failed.

        The row is failed by this call only when all `maxRetries` attempts threw and either every one
        of them met an infrastructure fault or the capture is refused by the builder or by a chain that
        another tenant wrote to; never for a tenant context error. A `failed` outcome does not by itself
        mean that the row was failed: its own mark_failed may have been refused or lost. */
    method RecoverStaleRow(orgId: Text, captureId: Text, worker: Option<Text>, maxRetries: nat,
                           settings: nat -> Text)
      returns (o: Outcome, ghost tries: nat, ghost cleanTries: nat, ghost errors: seq<Thrown>)
      requires Valid()
      modifies this`db, this`log, this`s, this`own, this`quiet
      ensures Valid() && Evolves(old(db), db)
      ensures cleanTries <= tries <= maxRetries && old(own) <= own
      ensures o.RowSealed? ==> SealedUnder(env, db, orgId, captureId) && o.eventId == env.derive(orgId, captureId)
      ensures o.RowSkipped? ==> !IsSealing(db, orgId, captureId)
      ensures o.RowFailedDivergent? ==> SawDivergence(env, captureId)
      ensures o.RowFailedMaxRetries? ==> tries == maxRetries
      ensures o.RowSealed? || o.RowSkipped? || o.RowTenantError? || o.Escaped? ==> AddsNoFail(old(own), own)
      ensures o.RowFailedMaxRetries? && IsUuid(orgId) && cleanTries > 0 && !Unsealable(db, captureId) ==>
                AddsNoFail(old(own), own) && HasFailed(db, captureId)
      ensures |errors| <= tries && forall i | 0 <= i < |errors| - 1 :: errors[i] == OtherError
      ensures LoaderTenantContext in errors <==> o.RowTenantError?
      ensures DivergentContent in errors ==> o.RowFailedDivergent? || o.Escaped?
      ensures o.RowFailedDivergent? ==> DivergentContent in errors
      ensures o.RowFailedMaxRetries? ==> |errors| == maxRetries && forall e | e in errors :: e == OtherError
      ensures (forall n :: settings(n) == orgId) ==> !o.RowTenantError?
      ensures quiet ==> old(quiet)
      ensures quiet && IsUuid(orgId) && maxRetries > 0 && settings(0) != orgId ==> o.RowTenantError? && db == old(db)
      ensures quiet && IsUuid(orgId) && maxRetries > 0 && DivergentContent !in errors
              && (forall n :: settings(n) == orgId) ==>
                if !IsSealing(old(db), orgId, captureId) then o.RowSkipped? && db == old(db)
                else if Unsealable(old(db), captureId) then o.RowFailedMaxRetries? && HasFailed(db, captureId)
                else o.RowSealed?
    {
      hide Next, Evolves, Indexed, GoodEnv, Admissible, Inv, Reached, AllAdmissible, DbInv, SawDivergence, AddsNoFail,
           IsSealing, HasFailed, SealedUnder, Unsealable, IsUuid;
      EvolvesReflexive(db);
      NothingAdded(own);
      tries, cleanTries, errors := 0, 0, [];
      var attempt := 0;
      while attempt < maxRetries
        invariant attempt == tries <= maxRetries && cleanTries <= tries
        invariant Valid() && Evolves(old(db), db) && AddsNoFail(old(own), own) && old(own) <= own
        invariant IsUuid(orgId) && cleanTries > 0 ==> Obstacle(db, captureId)
        invariant |errors| == attempt && forall i | 0 <= i < |errors| :: errors[i] == OtherError
        invariant quiet ==> old(quiet)
        invariant attempt == 0 ==> db == old(db)
        invariant quiet && IsUuid(orgId) && attempt > 0 ==> settings(0) == orgId
        invariant quiet && IsUuid(orgId) && (forall n :: settings(n) == orgId) ==>
                    db == old(db)
                    && (attempt > 0 ==> IsSealing(old(db), orgId, captureId) && Unsealable(old(db), captureId))
      {
        ghost var db1, own1 := db, own;
        var r, clean := NextAttempt(attempt > 0, orgId, captureId, worker, settings(attempt));
        EvolvesTransitive(old(db), db1, db);
        AddsNoFailTransitive(old(own), own1, own);
        AddsAtEnd(old(own), own);
        tries, cleanTries := tries + 1, if clean then cleanTries + 1 else cleanTries;
        match r {
          case AttemptSealed(eventId) => return RowSealed(eventId), tries, cleanTries, errors;
          case AttemptAbsent => return RowSkipped, tries, cleanTries, errors;
          case AttemptThrew(error) =>
            errors := errors + [error];
            match ClassifyError(error) {
              case ClassDivergent =>
                ghost var db2 := db;
                var script: FailScript := *;
                o := GiveUp(orgId, captureId, RowFailedDivergent, script);
                EvolvesTransitive(old(db), db2, db);
                ObstacleStays(db2, db, captureId);
                return;
              case ClassTenantContext => return RowTenantError, tries, cleanTries, errors;
              case ClassTransient =>
            }
        }
        attempt := attempt + 1;
      }
      ghost var db3, own3 := db, own;
      var last: FailScript := *;
      o := GiveUp(orgId, captureId, RowFailedMaxRetries, last);
      EvolvesTransitive(old(db), db3, db);
      ObstacleStays(db3, db, captureId);
    }

    // -------------------------------------------------------------------------------------
    // The sweep
    // -------------------------------------------------------------------------------------

    /** `detectStaleSealingCaptureIds`: up to `batch` captures of the tenant that are being sealed.
        Their age is not part of the model, so any choice of them is possible. */
    method DetectStale(orgId: Text, batch: nat) returns (ids: seq<Text>)
      ensures |ids| <= batch && (forall i | 0 <= i < |ids| :: IsSealing(db, orgId, ids[i]))
      ensures forall i, j | 0 <= i < j < |ids| :: ids[i] != ids[j]
    {
      ids := [];
      var rest := db.outbox.Keys;
      while rest != {} && |ids| < batch
        invariant rest <= db.outbox.Keys && |ids| <= batch
        invariant forall i | 0 <= i < |ids| :: IsSealing(db, orgId, ids[i]) && ids[i] !in rest
        invariant forall i, j | 0 <= i < j < |ids| :: ids[i] != ids[j]
        decreases |rest|
      {
        var id :| id in rest;
        rest := rest - {id};
        var stale: bool := *;
        if stale && IsSealing(db, orgId, id) { ids := ids + [id]; }
      }
    }

    /** `sweepStaleRecoveries`: None when an exception escapes. Every stale row is counted under its
        outcome, none is ever counted as failed for divergent content, and a row counted as recovered
        or skipped has reached a final state. */
    method SweepStaleRecoveries(orgId: Text, batch: nat, maxRetries: nat, worker: Option<Text>)
      returns (summary: Option<SweepSummary>, ghost ids: seq<Text>, ghost outcomes: seq<Outcome>,
               ghost errors: seq<seq<Thrown>>)
      requires Valid()
      modifies this`db, this`log, this`s, this`own, this`quiet
      ensures Valid() && Evolves(old(db), db)
      ensures old(own) <= own
      ensures summary.Some? ==> |ids| == |outcomes| == summary.value.staleDetected <= batch
      ensures summary.Some? ==> Counts(summary.value, outcomes)
      ensures summary.Some? ==> AllAccounted(env, db, orgId, ids, outcomes)
      ensures |errors| == |outcomes|
      ensures forall i | 0 <= i < |errors| :: LoaderTenantContext in errors[i] <==> outcomes[i].RowTenantError?
      ensures quiet ==> old(quiet)
      ensures quiet && IsUuid(orgId) && (forall id :: !IsSealing(old(db), orgId, id)) ==>
                summary == Some(SweepSummary(0, 0, 0, 0, 0)) && db == old(db)
    {
      hide Next, Evolves, Indexed, GoodEnv, Admissible, Inv, Reached, AllAdmissible, DbInv, SawDivergence, AddsNoFail,
           SealedUnder, Unsealable, IsUuid, HasFailed, Counts, AllAccounted, IsSealing;
      EvolvesReflexive(db);
      ids, outcomes, errors := [], [], [];
      var failed := Fault();
      if failed || !IsUuid(orgId) { return None, ids, outcomes, errors; }
      Others();
      ghost var quietly := quiet;
      var found := DetectStale(orgId, batch);
      ghost var db0 := db;
      EvolvesReflexive(db);
      assert |found| > 0 ==> IsSealing(db, orgId, found[0]);
      var sum := SweepSummary(|found|, 0, 0, 0, 0);
      NothingCounted(env, db, orgId, |found|);
      ids := found;
      for i := 0 to |found|
        invariant |outcomes| == i && sum.staleDetected == |found| && Counts(sum, outcomes)
        invariant |errors| == i
        invariant forall k | 0 <= k < i :: LoaderTenantContext in errors[k] <==> outcomes[k].RowTenantError?
        invariant Valid() && Evolves(old(db), db) && Evolves(db0, db) && old(own) <= own
        invariant AllAccounted(env, db, orgId, found[..i], outcomes)
        invariant quiet ==> quietly
        invariant i == 0 ==> db == db0 && sum == SweepSummary(|found|, 0, 0, 0, 0)
      {
        ghost var db1 := db;
        ghost var tries, clean, thrown;
        var o;
        // What app.org_id reads back in each attempt; a misconfigured session may hold another.
        var settings: nat -> Text := *;
        o, tries, clean, thrown := RecoverStaleRow(orgId, found[i], worker, maxRetries, settings);
        EvolvesTransitive(old(db), db1, db);
        EvolvesTransitive(db0, db1, db);
        NeverSeesDivergence(env, found[i]);
        if o.Escaped? { return None, ids, outcomes, errors; }
        RowAccounted(env, db0, db, orgId, found[i], o);
        AccountedStays(env, db1, db, orgId, found[..i], outcomes);
        AccountedAdds(env, db, orgId, found[..i], outcomes, found[i], o);
        assert found[..i] + [found[i]] == found[..i + 1];
        CountsStep(sum, outcomes, o);
        outcomes, errors := outcomes + [o], errors + [thrown];
        sum := Tally(sum, o);
      }
      assert found[..|found|] == found;
      return Some(sum), ids, outcomes, errors;
    }

    // -------------------------------------------------------------------------------------
    // One seal, one transaction
    // -------------------------------------------------------------------------------------

    /** `audit_capture_claim_for_seal`, as a search for the next row. */
    method ClaimNext(orgId: Text, chainId: Text) returns (r: ClaimResult)
      requires DbInv(env, db)
      ensures r == ClaimForSeal(db, orgId, orgId, chainId)
    {
      hide DbInv, Claimable;
      if chainId !in db.chains { return NothingToClaim; }
      if db.chains[chainId].orgId != orgId { return ClaimDenied; }
      if id :| id in db.outbox.Keys && Claimable(db, chainId, id) {
        ClaimUnique(env, db, chainId, id);
        return ClaimedRow(id);
      }
      NoneClaimable(db, chainId);
      return NothingToClaim;
    }

    /** The append, the mark_sealed and the COMMIT of a seal whose claim found a row. */
    method SealClaimed(orgId: Text, chainId: Text, id: Text, worker: Option<Text>, now: Text) returns (r: SealResult)
      requires Valid() && IsUuid(orgId) && ClaimForSeal(db, orgId, orgId, chainId) == ClaimedRow(id)
      modifies this`db, this`log, this`s, this`own, this`quiet
      ensures Valid() && Evolves(old(db), db) && AddsNoFail(old(own), own)
      ensures r.SealedOne? ==> SealedUnder(env, db, orgId, r.id) && Seals(own) == Seals(old(own)) + 1
      ensures quiet ==> old(quiet)
      ensures quiet ==> (db, r) == SealingProtocol.SealOnce(env, old(db), orgId, orgId, chainId, worker, now)
    {
      hide Next, Evolves, Indexed, GoodEnv, Admissible, Inv, Reached, AllAdmissible, DbInv, AppendPhaseOf, MarkSealed,
           SetStatus, IsUuid, SealedUnder, Claimable, ValidContent, ClaimForSeal, HasBannedKey, Seals,
           AddsNoFail, SealingProtocol.SealOnce;
      EvolvesReflexive(db);
      NothingAdded(own);
      ValidInv();
      SealComputes(env, db, orgId, chainId, worker, now);
      ClaimedMeans(env, db, orgId, chainId, id);
      var cl := ClaimedOf(id, db.outbox[id]);
      var sealing := SetStatus(db, id, Sealing);
      var a := RebuildAndAppend(orgId, cl, worker, now);
      if !a.AppendDone? { return Threw; }
      var marked := MarkSealed(sealing.(events := a.events), orgId, db.outbox[id].orgId, id, a.eventId);
      if marked.None? { return Threw; }
      SealedResult(env, db, orgId, chainId, id, worker, now);
      OwnAdmissible(env, SealNext(orgId, orgId, chainId, worker, now));
      SealStep(env, s, orgId, chainId, worker, now);
      var failed := Fault();
      var landed: bool := *;
      if failed && !landed { return Threw; }
      Commit(marked.value, SealNext(orgId, orgId, chainId, worker, now));
      AddsOne(old(own), SealNext(orgId, orgId, chainId, worker, now));
      if failed { return Threw; }
      return SealedOne(id, a.eventId);
    }

    /** `sealOnce`: the claim, append and mark_sealed of at most one capture, committed together or not
        at all. When nothing interferes it is the protocol's seal of the state it started from. */
    method SealOnce(orgId: Text, chainId: Text, worker: Option<Text>, now: Text) returns (r: SealResult)
      requires Valid()
      modifies this`db, this`log, this`s, this`own, this`quiet
      ensures Valid() && Evolves(old(db), db) && AddsNoFail(old(own), own)
      ensures r.SealedOne? ==> SealedUnder(env, db, orgId, r.id) && Seals(own) == Seals(old(own)) + 1
      ensures quiet ==> old(quiet)
      ensures quiet && IsUuid(orgId) ==>
                (db, r) == SealingProtocol.SealOnce(env, old(db), orgId, orgId, chainId, worker, now)
    {
      hide Next, Evolves, Indexed, GoodEnv, Admissible, Inv, Reached, AllAdmissible, DbInv, IsUuid, SealedUnder,
           Claimable, ClaimForSeal, Seals, AddsNoFail, SealingProtocol.SealOnce;
      EvolvesReflexive(db);
      NothingAdded(own);
      var failed := Fault();
      if failed || !IsUuid(orgId) { return Threw; }
      Others();
      ghost var db1 := db;
      ValidInv();
      var claim := ClaimNext(orgId, chainId);
      SealComputes(env, db, orgId, chainId, worker, now);
      failed := Fault();
      if failed || claim.ClaimDenied? { return Threw; }
      if claim.NothingToClaim? { return Idle; }
      r := SealClaimed(orgId, chainId, claim.id, worker, now);
      EvolvesTransitive(old(db), db1, db);
    }
  }

  lemma LoadMeans(db: Db, session: Text, orgId: Text, id: Text)
    ensures var r := LoadSealing(db, session, orgId, id);
            && (r.TenantContextError? <==> session != orgId || orgId == [])
            && (r.Absent? ==> !IsSealing(db, orgId, id))
            && (r.Loaded? ==>
                  session == orgId && orgId != [] && IsSealing(db, orgId, id) && r.cl == ClaimedOf(id, db.outbox[id]))
  {
  }

  lemma UuidIsText(t: Text)
    requires IsUuid(t)
    ensures t != []
  {
  }

  lemma OwnAdmissible(env: Env, step: Step)
    requires !step.Capture? && !step.ForeignAppend?
    ensures Admissible(env, step)
  {
  }

  lemma LoadHolds(env: Env, before: State, step: Step)
    requires step.Load? && Indexed(before.db.events)
    ensures var after := Next(env, before, step);
            && after.db == before.db && before.held <= after.held
            && var r := LoadSealing(before.db, step.session, step.orgId, step.id); (r.Loaded? ==> r.cl in after.held)
  {
  }

  lemma HeldIs(env: Env, s: State, cl: Claimed)
    requires Inv(env, s) && cl in s.held
    ensures HeldOk(s.db, cl)
  {
    hide DbInv, HeldOk;
  }

  lemma MetDivergence(env: Env, run: seq<Step>, session: Text, cl: Claimed, worker: Option<Text>, now: Text)
    requires GoodEnv(env) && AllAdmissible(env, run) && cl in Reached(env, run).held
    requires Indexed(Reached(env, run).db.events)
    requires var a := AppendPhaseOf(env, Reached(env, run).db.events, session, cl, worker, now);
             a.AppendFailed? && a.error.Divergent?
    ensures SawDivergence(env, cl.captureId)
  {
    hide Reached, AppendPhaseOf, Indexed, GoodEnv, AllAdmissible;
    assert DivergedOn(env, run, session, cl, worker, now);
  }

  /** Other than by divergence, the append phase fails only on a refused capture. */
  lemma ThrowsIfRefused(env: Env, db: Db, cl: Claimed, worker: Option<Text>, now: Text)
    requires GoodEnv(env) && DbInv(env, db) && Indexed(db.events) && HeldOk(db, cl)
    requires !AppendPhaseOf(env, db.events, cl.orgId, cl, worker, now).AppendDone?
    ensures Unsealable(db, cl.captureId)
  {
    hide AppendPhaseOf, HasBannedKey, DbInv, GoodEnv, Indexed;
    AppendSucceeds(env, db, cl, worker, now);
  }

  /** What a recovery that appended and marked commits. */
  lemma RecoverStep(env: Env, s: State, session: Text, cl: Claimed, worker: Option<Text>, now: Text)
    requires Indexed(s.db.events) && cl in s.held
    ensures Next(env, s, RecoverHeld(session, cl, worker, now)).db == RecoverOnce(env, s.db, session, cl, worker, now).0
  {
    hide RecoverOnce, Indexed;
  }

  lemma SealedAfter(env: Env, db: Db, cl: Claimed, marked: Db)
    requires HeldOk(db, cl) && cl.captureId in marked.outbox
    requires marked.outbox[cl.captureId]
             == db.outbox[cl.captureId].(status := Sealed(env.derive(cl.orgId, cl.captureId)))
    ensures SealedUnder(env, marked, cl.orgId, cl.captureId)
  {
  }

  lemma FailStep(env: Env, before: Db, db: Db, s: State, orgId: Text, id: Text)
    requires Evolves(before, db) && s.db == db && Indexed(db.events)
    ensures var r := MarkFailed(db, orgId, orgId, id);
            r.Some? ==>
              Next(env, s, Fail(orgId, orgId, id)).db == r.value && HasFailed(r.value, id) && !HasFailed(before, id)
  {
    hide Indexed;
  }

  lemma NothingAdded(a: seq<Step>)
    ensures AddsNoFail(a, a)
  {
  }

  lemma ObstacleStays(db: Db, db': Db, id: Text)
    requires Evolves(db, db')
    ensures Unsealable(db, id) ==> Unsealable(db', id)
    ensures HasFailed(db, id) ==> HasFailed(db', id)
  {
    hide HasBannedKey, AuditChainId;
  }

  lemma ClaimUnique(env: Env, db: Db, chainId: Text, id: Text)
    requires DbInv(env, db) && Claimable(db, chainId, id)
    ensures chainId in db.chains
            && ClaimForSeal(db, db.chains[chainId].orgId, db.chains[chainId].orgId, chainId) == ClaimedRow(id)
  {
    ClaimTakes(env, db, db.chains[chainId].orgId, chainId, id);
  }

  lemma NoneClaimable(db: Db, chainId: Text)
    requires forall id | id in db.outbox.Keys :: !Claimable(db, chainId, id)
    requires chainId in db.chains
    ensures ClaimForSeal(db, db.chains[chainId].orgId, db.chains[chainId].orgId, chainId) == NothingToClaim
  {
  }

  lemma ClaimedMeans(env: Env, db: Db, orgId: Text, chainId: Text, id: Text)
    requires DbInv(env, db) && ClaimForSeal(db, orgId, orgId, chainId) == ClaimedRow(id)
    ensures Claimable(db, chainId, id) && id in db.outbox && ValidContent(db.outbox[id].c)
    ensures chainId in db.chains && db.chains[chainId].orgId == orgId
  {
    hide EventsValid, StampOk, EventOk, ValidContent, ChainsDense;
    assert RowOk(env, db, id);
  }

  lemma SealStep(env: Env, s: State, orgId: Text, chainId: Text, worker: Option<Text>, now: Text)
    requires Indexed(s.db.events)
    ensures Next(env, s, SealNext(orgId, orgId, chainId, worker, now)).db
         == SealOnce(env, s.db, orgId, orgId, chainId, worker, now).0
  {
    hide SealOnce, Indexed;
  }

  /** What the protocol's seal is, phase by phase. */
  lemma SealComputes(env: Env, db: Db, orgId: Text, chainId: Text, worker: Option<Text>, now: Text)
    requires Indexed(db.events)
    ensures var claim := ClaimForSeal(db, orgId, orgId, chainId);
            var r := SealOnce(env, db, orgId, orgId, chainId, worker, now);
            && (claim.ClaimDenied? ==> r == (db, Threw))
            && (claim.NothingToClaim? ==> r == (db, Idle))
            && (claim.ClaimedRow? ==>
                  var row := db.outbox[claim.id];
                  var a := AppendPhaseOf(env, db.events, orgId, ClaimedOf(claim.id, row), worker, now);
                  && (!a.AppendDone? ==> r == (db, Threw))
                  && (a.AppendDone? ==>
                        var sealing := SetStatus(db, claim.id, Sealing).(events := a.events);
                        var marked := MarkSealed(sealing, orgId, row.orgId, claim.id, a.eventId);
                        r == if marked.None? then (db, Threw) else (marked.value, SealedOne(claim.id, a.eventId))))
  {
    hide AppendPhaseOf, MarkSealed, Indexed;
  }

  /** A seal that appends and marks is the exact seal of its capture. */
  lemma SealedResult(env: Env, db: Db, orgId: Text, chainId: Text, id: Text, worker: Option<Text>, now: Text)
    requires GoodEnv(env) && DbInv(env, db) && Indexed(db.events) && IsUuid(orgId)
    requires ClaimForSeal(db, orgId, orgId, chainId) == ClaimedRow(id) && id in db.outbox
    requires AppendPhaseOf(env, db.events, orgId, ClaimedOf(id, db.outbox[id]), worker, now).AppendDone?
    ensures db.outbox[id].orgId == orgId
    ensures var r := SealOnce(env, db, orgId, orgId, chainId, worker, now);
            r.1.SealedOne? ==> r.1 == SealedOne(id, env.derive(orgId, id)) && SealedUnder(env, r.0, orgId, id)
  {
    hide DbInv, GoodEnv, Indexed, SealOnce, Claimable, ClaimForSeal, AppendPhaseOf, HasBannedKey;
    ClaimedMeans(env, db, orgId, chainId, id);
    ClaimTakes(env, db, orgId, chainId, id);
    SealsExactly(env, db, orgId, chainId, id, worker, now);
  }

  lemma BuiltWellFormed(env: Env, cl: Claimed, worker: Option<Text>, now: Text)
    requires ValidContent(cl.c) && Build(env, cl, worker, now).Some?
    ensures WellFormed(Build(env, cl, worker, now).value.redaction)
  {
    hide HasBannedKey, MergedRedaction, WellFormed, ValidContent;
    MergedWellFormed(cl, worker, now);
  }
}
