/** The two-level lock order under which sends, forks, patches and lifecycle transitions run as several
    statements: the conversation root's row lock first, then the branch's execution authority, an
    advisory lock whose 32-bit key may collide. What a transaction read under its locks still holds
    when it writes, so every commit is one atomic step; and no set of transactions deadlocks. */
module Locks {
  import opened Wrappers
  import opened Utf16
  import opened Intents
  import opened Conversations
  import opened ConversationSteps
  import opened ConversationLaws

  datatype Job =
    | SendJob(scope: Scope, convId: Text, send: SendRequest, draws: Draws)
    | ForkJob(scope: Scope, convId: Text, fork: ForkRequest, draws: Draws, now: Text)
    | PatchJob(scope: Scope, convId: Text, title: Option<Text>, archived: Option<bool>)
    | LifecycleJob(convId: Text, status: ConvStatus)

  datatype Phase =
    | Waiting
    | Rooted
    | Branched
    | Numbered(n: nat)
    | Planned(branch: Branch)
    | Finished

  datatype Tx = Tx(job: Job, phase: Phase)

  datatype State = State(db: Db, txs: map<nat, Tx>)

  function RootId(job: Job): Text { if job.LifecycleJob? then job.convId else Lower(job.convId) }

  function BranchId(job: Job): Text
    requires job.SendJob? || job.ForkJob?
  {
    if job.SendJob? then Lower(job.send.branchId) else Lower(job.fork.parentId)
  }

  predicate HoldsRoot(tx: Tx) { !tx.phase.Waiting? && !tx.phase.Finished? }

  predicate HoldsKey(tx: Tx)
  {
    (tx.job.SendJob? || tx.job.ForkJob?) && (tx.phase.Branched? || tx.phase.Numbered? || tx.phase.Planned?)
  }

  /** `hashtext` of the branch's lock name: any function, so keys may collide. */
  type Hash = Text -> int

  predicate RootFree(s: State, id: nat, root: Text)
  {
    forall j | j in s.txs && j != id && HoldsRoot(s.txs[j]) :: RootId(s.txs[j].job) != root
  }

  predicate KeyFree(hash: Hash, s: State, id: nat, key: int)
  {
    forall j | j in s.txs && j != id && HoldsKey(s.txs[j]) :: hash(BranchId(s.txs[j].job)) != key
  }

  /** What a job checks between the root lock and the branch lock. */
  predicate Validated(env: Env, db: Db, job: Job)
  {
    match job
    case SendJob(scope, convId, send, draws) =>
      && env.size(send.native) <= NATIVE_REQUEST_MAX_BYTES
      && Root(db, scope, convId).Some? && IsAddressable(Root(db, scope, convId).value.status)
      && BranchIn(db, convId, send.branchId).Some?
      && Dispatchable(BranchIn(db, convId, send.branchId).value.provider,
                      BranchIn(db, convId, send.branchId).value.surface)
    case ForkJob(scope, convId, fork, draws, now) =>
      && Root(db, scope, convId).Some? && IsAddressable(Root(db, scope, convId).value.status)
      && BranchIn(db, convId, fork.parentId).Some?
    case _ => true
  }

  /** The writes of a send that read its turn number earlier; nothing is checked again but the keys. */
  ghost function WriteSend(env: Env, db: Db, job: Job, n: nat): Db
    requires job.SendJob?
  {
    var conv, branchId := Lower(job.convId), Lower(job.send.branchId);
    var draws := job.draws;
    var turn := Turn(conv, branchId, Lower(job.send.clientTurnId), n, draws(2), draws(0));
    if draws(0) in db.contents || (exists t :: HasClientTurn(db, conv, turn.clientTurnId, t))
       || draws(1) in db.turns || draws(2) in db.attempts then db
    else
      AddItem(AddTurn(AddContent(db, draws(0), conv, Document(job.send.native)), draws(1), turn),
              ItemKey(draws(1), None, INPUT_ITEM_SEQ), Item(InputItemType(), draws(0)))
  }

  /** The writes of a fork that planned its branch earlier. */
  ghost function WriteFork(env: Env, db: Db, job: Job, b: Branch): Db
    requires job.ForkJob? && b.pin.Some?
  {
    var key := BindingKey(Lower(job.convId), Lower(job.fork.clientForkId));
    if key in db.bindings || !IsAdmissibleNewIdentity(b.provider, b.surface) || job.draws(0) in db.branches then db
    else
      var db1 := AddFork(db, job.draws(0), b, key, BranchHash(env, b));
      if job.fork.mode.AfterAttempt? then db1
      else
        var m := MintChild(db1, job.draws(0), b, job.draws);
        if m.MintFailed? then db else m.db
  }

  function AtomicStep(job: Job): Step
  {
    match job
    case SendJob(scope, convId, send, draws) => SendStep(scope, convId, send, draws)
    case ForkJob(scope, convId, fork, draws, now) => ForkStep(scope, convId, fork, draws, now)
    case PatchJob(scope, convId, title, archived) => PatchStep(scope, convId, title, archived)
    case LifecycleJob(convId, status) => LifecycleStep(convId, status)
  }

  /** One statement of one transaction, or a step of somebody who takes none of these locks. */
  datatype Move =
    | Begin(id: nat, job: Job)
    | TakeRoot(id: nat)
    | TakeBranch(id: nat)
    | ReadNumber(id: nat)
    | ReadPlan(id: nat)
    | Commit(id: nat)
    | Abort(id: nat)
    | Free(step: Step)

  predicate LockFree(step: Step)
  {
    !step.SendStep? && !step.ForkStep? && !step.PatchStep? && !step.LifecycleStep?
  }

  ghost predicate MoveAdmissible(m: Move)
  {
    match m
    case Begin(_, job) => Conversations.Admissible(AtomicStep(job))
    case Free(step) => LockFree(step) && Conversations.Admissible(step)
    case _ => true
  }

  predicate Enabled(env: Env, hash: Hash, s: State, m: Move)
  {
    match m
    case Begin(id, _) => id !in s.txs
    case TakeRoot(id) => id in s.txs && s.txs[id].phase.Waiting? && RootFree(s, id, RootId(s.txs[id].job))
    case TakeBranch(id) =>
      && id in s.txs && s.txs[id].phase.Rooted? && (s.txs[id].job.SendJob? || s.txs[id].job.ForkJob?)
      && Validated(env, s.db, s.txs[id].job) && KeyFree(hash, s, id, hash(BranchId(s.txs[id].job)))
    case ReadNumber(id) => id in s.txs && s.txs[id].phase.Branched? && s.txs[id].job.SendJob?
    case ReadPlan(id) =>
      && id in s.txs && s.txs[id].phase.Branched? && s.txs[id].job.ForkJob?
      && var j := s.txs[id].job; PlanFork(s.db, j.scope, j.convId, j.fork, j.now).Plan?
    case Commit(id) =>
      && id in s.txs
      && (s.txs[id].job.SendJob? ==> s.txs[id].phase.Numbered?)
      && (s.txs[id].job.ForkJob? ==> s.txs[id].phase.Planned? && s.txs[id].phase.branch.pin.Some?)
      && (s.txs[id].job.PatchJob? || s.txs[id].job.LifecycleJob? ==> s.txs[id].phase.Rooted?)
    case Abort(id) => id in s.txs && !s.txs[id].phase.Finished?
    case Free(_) => true
  }

  function SetPhase(s: State, id: nat, p: Phase): State
    requires id in s.txs
  {
    s.(txs := s.txs[id := s.txs[id].(phase := p)])
  }

  ghost function CommitDb(env: Env, s: State, id: nat): Db
    requires id in s.txs
  {
    var tx := s.txs[id];
    match tx.job
    case SendJob(_, _, _, _) => if tx.phase.Numbered? then WriteSend(env, s.db, tx.job, tx.phase.n) else s.db
    case ForkJob(_, _, _, _, _) =>
      if tx.phase.Planned? && tx.phase.branch.pin.Some? then WriteFork(env, s.db, tx.job, tx.phase.branch) else s.db
    case _ => Next(env, s.db, AtomicStep(tx.job))
  }

  ghost function After(env: Env, hash: Hash, s: State, m: Move): State
    requires Enabled(env, hash, s, m)
  {
    match m
    case Begin(id, job) => s.(txs := s.txs[id := Tx(job, Waiting)])
    case TakeRoot(id) => SetPhase(s, id, Rooted)
    case TakeBranch(id) => SetPhase(s, id, Branched)
    case ReadNumber(id) => SetPhase(s, id, Numbered(NextSeq(s.db, BranchId(s.txs[id].job))))
    case ReadPlan(id) =>
      var j := s.txs[id].job;
      SetPhase(s, id, Planned(PlanFork(s.db, j.scope, j.convId, j.fork, j.now).branch))
    case Commit(id) => SetPhase(s.(db := CommitDb(env, s, id)), id, Finished)
    case Abort(id) => SetPhase(s, id, Finished)
    case Free(step) => s.(db := Next(env, s.db, step))
  }

  // ---------------------------------------------------------------------------------------
  // The invariant
  // ---------------------------------------------------------------------------------------

  /** What a transaction read under its locks is still so. */
  ghost predicate StillSo(env: Env, db: Db, tx: Tx)
  {
    && (tx.phase.Branched? ==> tx.job.SendJob? || tx.job.ForkJob?)
    && (HoldsKey(tx) ==> Validated(env, db, tx.job))
    && (tx.phase.Numbered? ==> tx.job.SendJob? && tx.phase.n == NextSeq(db, BranchId(tx.job)))
    && (tx.phase.Planned? ==>
          tx.job.ForkJob?
          && PlanFork(db, tx.job.scope, tx.job.convId, tx.job.fork, tx.job.now) == Plan(tx.phase.branch))
    && Conversations.Admissible(AtomicStep(tx.job))
  }

  predicate RootsExclusive(s: State)
  {
    forall i, j | i in s.txs && j in s.txs && HoldsRoot(s.txs[i]) && HoldsRoot(s.txs[j])
      && RootId(s.txs[i].job) == RootId(s.txs[j].job) :: i == j
  }

  predicate KeysExclusive(hash: Hash, s: State)
  {
    forall i, j | i in s.txs && j in s.txs && HoldsKey(s.txs[i]) && HoldsKey(s.txs[j])
      && hash(BranchId(s.txs[i].job)) == hash(BranchId(s.txs[j].job)) :: i == j
  }

  ghost predicate LockInv(env: Env, hash: Hash, s: State)
  {
    && Inv(env, s.db) && RootsExclusive(s) && KeysExclusive(hash, s)
    && (forall i | i in s.txs :: StillSo(env, s.db, s.txs[i]))
  }

  /** The conversation whose root lock a step needs. */
  function StepRoot(step: Step): Option<Text>
  {
    match step
    case SendStep(_, convId, _, _) => Some(Lower(convId))
    case ForkStep(_, convId, _, _, _) => Some(Lower(convId))
    case PatchStep(_, convId, _, _) => Some(Lower(convId))
    case LifecycleStep(convId, _) => Some(convId)
    case _ => None
  }

  /** The root row and the turn numbers of one conversation are the same in both states. */
  ghost predicate Undisturbed(db: Db, later: Db, c: Text)
  {
    && (c in db.convs ==> c in later.convs && later.convs[c] == db.convs[c])
    && (forall b | b in db.branches && db.branches[b].convId == c :: SeqsOf(later, b) == SeqsOf(db, b))
  }

  /** A step that needs another root's lock, or none, leaves a conversation undisturbed. */
  lemma StepUndisturbs(env: Env, db: Db, step: Step, c: Text)
    requires Inv(env, db) && Conversations.Admissible(step) && StepRoot(step) != Some(c)
    ensures Undisturbed(db, Next(env, db, step), c)
  {
    hide Inv, Conversations.Admissible, Undisturbed;
    match step
    case SendStep(scope, convId, send, draws) => SendUndisturbs(env, db, scope, convId, send, draws, c);
    case ForkStep(scope, convId, fork, draws, now) => ForkUndisturbs(env, db, scope, convId, fork, draws, now, c);
    case CreateStep(scope, create, draws, now) => CreateUndisturbs(env, db, scope, create, draws, now, c);
    case _ =>
      StepKeeps(env, db, step);
      OtherUndisturbs(env, db, step, c);
  }

  lemma SameTurnsUndisturbed(db: Db, later: Db, c: Text)
    requires c in db.convs ==> c in later.convs && later.convs[c] == db.convs[c]
    requires later.turns.Keys == db.turns.Keys
    requires forall t | t in db.turns ::
               t in later.turns && later.turns[t].(currentId := db.turns[t].currentId) == db.turns[t]
    ensures Undisturbed(db, later, c)
  {
    forall t | t in later.turns ensures t in db.turns { assert t in later.turns.Keys; }
    forall b | b in db.branches && db.branches[b].convId == c ensures SeqsOf(later, b) == SeqsOf(db, b) {
      SeqsSame(db, later, b);
    }
  }

  lemma SeqsSame(db: Db, later: Db, b: Text)
    requires forall t | t in later.turns :: t in db.turns
    requires forall t | t in db.turns ::
               t in later.turns && later.turns[t].(currentId := db.turns[t].currentId) == db.turns[t]
    ensures SeqsOf(later, b) == SeqsOf(db, b)
  {
    forall n ensures n in SeqsOf(later, b) <==> n in SeqsOf(db, b) {
      if n in SeqsOf(db, b) {
        var t :| t in db.turns && db.turns[t].branchId == b && db.turns[t].turnSeq == n;
        assert later.turns[t].(currentId := db.turns[t].currentId) == db.turns[t];
      }
      if n in SeqsOf(later, b) {
        var t :| t in later.turns && later.turns[t].branchId == b && later.turns[t].turnSeq == n;
        assert later.turns[t].(currentId := db.turns[t].currentId) == db.turns[t];
      }
    }
  }

  lemma OtherUndisturbs(env: Env, db: Db, step: Step, c: Text)
    requires StepRoot(step) != Some(c) && !step.SendStep? && !step.ForkStep? && !step.CreateStep?
    requires Evolves(db, Next(env, db, step))
    ensures Undisturbed(db, Next(env, db, step), c)
  {
    hide Undisturbed, Evolves;
    OtherKeys(env, db, step);
    OtherConv(env, db, step, c);
    EvolvedTurns(db, Next(env, db, step));
    SameTurnsUndisturbed(db, Next(env, db, step), c);
  }

  lemma EvolvedTurns(db: Db, later: Db)
    requires Evolves(db, later)
    ensures forall t | t in db.turns ::
              t in later.turns && later.turns[t].(currentId := db.turns[t].currentId) == db.turns[t]
  {
  }

  lemma OtherKeys(env: Env, db: Db, step: Step)
    requires !step.SendStep? && !step.ForkStep? && !step.CreateStep?
    ensures Next(env, db, step).turns.Keys == db.turns.Keys
  {
    hide StatusEdge, AttemptEdge, HasSeq, IsAddressable, Root;
  }

  lemma OtherConv(env: Env, db: Db, step: Step, c: Text)
    requires StepRoot(step) != Some(c) && !step.SendStep? && !step.ForkStep? && !step.CreateStep?
    ensures c in db.convs ==> c in Next(env, db, step).convs && Next(env, db, step).convs[c] == db.convs[c]
  {
    hide StatusEdge, AttemptEdge, HasSeq, IsAddressable, Root;
  }

  /** A new turn of another branch. */
  lemma NewTurnUndisturbed(db: Db, later: Db, c: Text, t: Text, branchId: Text)
    requires c in db.convs ==> c in later.convs && later.convs[c] == db.convs[c]
    requires t !in db.turns && t in later.turns && later.turns == db.turns[t := later.turns[t]]
             && later.turns[t].branchId == branchId
    requires branchId in db.branches ==> db.branches[branchId].convId != c
    ensures Undisturbed(db, later, c)
  {
    forall b | b in db.branches && db.branches[b].convId == c ensures SeqsOf(later, b) == SeqsOf(db, b) {
      NewTurnElsewhere(db, later, t, b);
    }
  }

  lemma NewTurnElsewhere(db: Db, later: Db, t: Text, b: Text)
    requires t !in db.turns && t in later.turns && later.turns == db.turns[t := later.turns[t]]
             && later.turns[t].branchId != b
    ensures SeqsOf(later, b) == SeqsOf(db, b)
  {
    forall n ensures n in SeqsOf(later, b) <==> n in SeqsOf(db, b) {
      if n in SeqsOf(db, b) {
        var u :| u in db.turns && db.turns[u].branchId == b && db.turns[u].turnSeq == n;
        assert later.turns[u] == db.turns[u];
      }
      if n in SeqsOf(later, b) {
        var u :| u in later.turns && later.turns[u].branchId == b && later.turns[u].turnSeq == n;
        assert later.turns[u] == db.turns[u];
      }
    }
  }

  lemma SendUndisturbs(env: Env, db: Db, scope: Scope, convId: Text, q: SendRequest, draws: Draws, c: Text)
    requires Lower(convId) != c
    ensures Undisturbed(db, Next(env, db, SendStep(scope, convId, q, draws)), c)
  {
    hide Undisturbed, NextSeq, Dispatchable;
    var r := SendTx(env, db, scope, convId, q, draws);
    if r.SendCommitted? {
      NewTurnUndisturbed(db, r.db, c, draws(1), Lower(q.branchId));
    } else {
      SameTurnsUndisturbed(db, db, c);
    }
  }

  lemma CreateUndisturbs(env: Env, db: Db, scope: Scope, q: CreateRequest, draws: Draws, now: Text, c: Text)
    ensures Undisturbed(db, Next(env, db, CreateStep(scope, q, draws, now)), c)
  {
    hide Undisturbed, IsAdmissibleNewIdentity;
    SameTurnsUndisturbed(db, Next(env, db, CreateStep(scope, q, draws, now)), c);
  }

  lemma ForkUndisturbs(env: Env, db: Db, scope: Scope, convId: Text, q: ForkRequest, draws: Draws, now: Text, c: Text)
    requires Lower(convId) != c
    ensures Undisturbed(db, Next(env, db, ForkStep(scope, convId, q, draws, now)), c)
  {
    hide Undisturbed, PlanFork, BranchHash, MintChild, IsAdmissibleNewIdentity;
    var r := ForkTx(env, db, scope, convId, q, draws, now);
    if !r.ForkCommitted? {
      SameTurnsUndisturbed(db, db, c);
    } else {
      PlanPins(db, scope, convId, q, now);
      var b := PlanFork(db, scope, convId, q, now).branch;
      var db1 := AddFork(db, draws(0), b, BindingKey(Lower(convId), Lower(q.clientForkId)), BranchHash(env, b));
      if q.mode.AfterAttempt? {
        SameTurnsUndisturbed(db, r.db, c);
      } else {
        MintOneTurn(db1, draws(0), b, draws);
        NewTurnUndisturbed(db, r.db, c, draws(2), draws(0));
      }
    }
  }

  lemma MintOneTurn(db: Db, id: Text, b: Branch, draws: Draws)
    requires b.pin.Some? && MintChild(db, id, b, draws).Minted?
    ensures var r := MintChild(db, id, b, draws).db;
            && r.convs == db.convs && draws(2) !in db.turns && draws(2) in r.turns
            && r.turns == db.turns[draws(2) := r.turns[draws(2)]] && r.turns[draws(2)].branchId == id
  {
    hide CopyItems;
    var source := b.pin.value.turnId;
    var payload := db.contents[db.turns[source].configId].payload;
    var db2 := AddTurn(AddContent(db, draws(1), b.convId, payload), draws(2),
                       Turn(b.convId, id, draws(4), 1, draws(3), draws(1)));
    CopyItemsTurns(db2, b.convId, source, draws(2), OwnedSeqs(db, source), draws, 5);
    CopyConvs(db2, b.convId, source, draws(2), OwnedSeqs(db, source), draws, 5);
  }

  lemma {:induction false} CopyConvs(db: Db, convId: Text, source: Text, child: Text, seqs: seq<nat>, draws: Draws,
                                     k: nat)
    requires CopyItems(db, convId, source, child, seqs, draws, k).Minted?
    ensures CopyItems(db, convId, source, child, seqs, draws, k).db.convs == db.convs
    decreases |seqs|
  {
    if |seqs| > 0 {
      var key := ItemKey(source, None, seqs[0]);
      if key !in db.items {
        CopyConvs(db, convId, source, child, seqs[1..], draws, k);
      } else {
        var db1 := AddContent(db, draws(k), convId, db.contents[db.items[key].contentId].payload);
        var db2 := AddItem(db1, ItemKey(child, None, seqs[0]), Item(db.items[key].itemType, draws(k)));
        CopyConvs(db2, convId, source, child, seqs[1..], draws, k + 1);
      }
    }
  }

  // ---------------------------------------------------------------------------------------
  // Every commit is one atomic step
  // ---------------------------------------------------------------------------------------

  /** What a transaction wrote is what the atomic step does to the state it commits in. */
  lemma CommitIsAtomic(env: Env, hash: Hash, s: State, id: nat)
    requires LockInv(env, hash, s) && Enabled(env, hash, s, Commit(id))
    ensures CommitDb(env, s, id) == Next(env, s.db, AtomicStep(s.txs[id].job))
  {
    hide Inv, RootsExclusive, KeysExclusive, NextSeq, Conversations.Admissible, MintChild, BranchHash,
         IsAdmissibleNewIdentity, Dispatchable;
    var tx := s.txs[id];
    assert StillSo(env, s.db, tx);
    match tx.job
    case SendJob(scope, convId, send, draws) => SendIsAtomic(env, s.db, tx);
    case ForkJob(scope, convId, fork, draws, now) => ForkIsAtomic(env, s.db, tx);
    case _ =>
  }

  lemma SendIsAtomic(env: Env, db: Db, tx: Tx)
    requires StillSo(env, db, tx) && tx.job.SendJob? && tx.phase.Numbered?
    ensures WriteSend(env, db, tx.job, tx.phase.n) == Next(env, db, AtomicStep(tx.job))
  {
    hide NextSeq, Dispatchable, Conversations.Admissible;
  }

  lemma ForkIsAtomic(env: Env, db: Db, tx: Tx)
    requires StillSo(env, db, tx) && tx.job.ForkJob? && tx.phase.Planned? && tx.phase.branch.pin.Some?
    ensures WriteFork(env, db, tx.job, tx.phase.branch) == Next(env, db, AtomicStep(tx.job))
  {
    hide NextSeq, Dispatchable, Conversations.Admissible, MintChild, BranchHash, IsAdmissibleNewIdentity, PlanFork;
  }

  /** The atomic step a move stands for, if it changes the database. */
  function StepOf(s: State, m: Move): Option<Step>
  {
    match m
    case Commit(id) => if id in s.txs then Some(AtomicStep(s.txs[id].job)) else None
    case Free(step) => Some(step)
    case _ => None
  }

  /** Every move either leaves the database alone or is one atomic step of the store. */
  lemma MoveIsAtomic(env: Env, hash: Hash, s: State, m: Move)
    requires LockInv(env, hash, s) && MoveAdmissible(m) && Enabled(env, hash, s, m)
    ensures StepOf(s, m).None? ==> After(env, hash, s, m).db == s.db
    ensures StepOf(s, m).Some? ==> Conversations.Admissible(StepOf(s, m).value)
    ensures StepOf(s, m).Some? ==> After(env, hash, s, m).db == Next(env, s.db, StepOf(s, m).value)
  {
    hide Inv, RootsExclusive, KeysExclusive, Next, CommitDb, Conversations.Admissible, NextSeq, PlanFork, Validated;
    if m.Commit? {
      CommitIsAtomic(env, hash, s, m.id);
      assert StillSo(env, s.db, s.txs[m.id]);
    }
  }

  // ---------------------------------------------------------------------------------------
  // Moves keep the invariant
  // ---------------------------------------------------------------------------------------

  /** What was read under a root's lock stays so while nobody disturbs that conversation. */
  lemma ReadsStay(env: Env, db: Db, later: Db, tx: Tx)
    requires StillSo(env, db, tx) && Evolves(db, later) && Undisturbed(db, later, RootId(tx.job))
    ensures StillSo(env, later, tx)
  {
    hide Conversations.Admissible, NextSeq, PlanFork, Dispatchable;
    if HoldsKey(tx) { ValidatedStays(env, db, later, tx.job); }
    if tx.phase.Numbered? { NumberStays(env, db, later, tx); }
    if tx.phase.Planned? {
      var j := tx.job;
      PlanStays(db, later, j.scope, j.convId, j.convId, j.fork, j.fork, j.now, j.now);
      PlanNow(db, j.scope, j.convId, j.fork, j.now);
    }
  }

  lemma PlanNow(db: Db, scope: Scope, convId: Text, q: ForkRequest, now: Text)
    requires PlanFork(db, scope, convId, q, now).Plan?
    ensures PlanFork(db, scope, convId, q, now).branch.createdAt == now
  {
  }

  lemma ValidatedStays(env: Env, db: Db, later: Db, job: Job)
    requires Validated(env, db, job) && Evolves(db, later) && Undisturbed(db, later, RootId(job))
    ensures Validated(env, later, job)
  {
    hide Dispatchable, SeqsOf;
  }

  lemma NumberStays(env: Env, db: Db, later: Db, tx: Tx)
    requires StillSo(env, db, tx) && tx.phase.Numbered? && Undisturbed(db, later, RootId(tx.job))
    ensures NextSeq(later, BranchId(tx.job)) == NextSeq(db, BranchId(tx.job))
  {
    hide Conversations.Admissible, PlanFork, Dispatchable;
    assert Validated(env, db, tx.job);
  }

  /** No other transaction that holds a root is disturbed by a step taken under another root. */
  lemma OthersUndisturbed(env: Env, hash: Hash, s: State, m: Move, i: nat)
    requires LockInv(env, hash, s) && MoveAdmissible(m) && Enabled(env, hash, s, m) && StepOf(s, m).Some?
    requires i in s.txs && HoldsRoot(s.txs[i]) && (m.Commit? ==> i != m.id)
    ensures StepRoot(StepOf(s, m).value) != Some(RootId(s.txs[i].job))
  {
    hide Inv, KeysExclusive, StillSo;
  }

  lemma ReadsKept(env: Env, hash: Hash, s: State, m: Move, i: nat)
    requires LockInv(env, hash, s) && MoveAdmissible(m) && Enabled(env, hash, s, m)
    requires i in s.txs && (m.Commit? ==> i != m.id)
    ensures StillSo(env, After(env, hash, s, m).db, s.txs[i])
  {
    hide Inv, RootsExclusive, KeysExclusive, Next, Evolves, After, Enabled, MoveAdmissible, Undisturbed;
    assert StillSo(env, s.db, s.txs[i]);
    MoveIsAtomic(env, hash, s, m);
    if StepOf(s, m).Some? {
      if HoldsRoot(s.txs[i]) {
        hide StillSo;
        OthersUndisturbed(env, hash, s, m, i);
        StepUndisturbs(env, s.db, StepOf(s, m).value, RootId(s.txs[i].job));
        StepKeeps(env, s.db, StepOf(s, m).value);
        ReadsStay(env, s.db, After(env, hash, s, m).db, s.txs[i]);
      }
    }
  }

  /** Every statement of every transaction keeps the invariant. */
  lemma MoveKeeps(env: Env, hash: Hash, s: State, m: Move)
    requires LockInv(env, hash, s) && MoveAdmissible(m) && Enabled(env, hash, s, m)
    ensures LockInv(env, hash, After(env, hash, s, m))
  {
    var s' := After(env, hash, s, m);
    assert Inv(env, s'.db) by {
      hide *;
      MoveDb(env, hash, s, m);
    }
    LocksKept(env, hash, s, m);
    forall i | i in s'.txs ensures StillSo(env, s'.db, s'.txs[i]) {
      hide Inv, RootsExclusive, KeysExclusive, StillSo;
      if i in s.txs && s'.txs[i] == s.txs[i] && !(m.Commit? && m.id == i) { ReadsKept(env, hash, s, m, i); }
      else { MoverSo(env, hash, s, m, i); }
    }
  }

  lemma MoveDb(env: Env, hash: Hash, s: State, m: Move)
    requires LockInv(env, hash, s) && MoveAdmissible(m) && Enabled(env, hash, s, m)
    ensures Inv(env, After(env, hash, s, m).db) && Evolves(s.db, After(env, hash, s, m).db)
  {
    hide Inv, Evolves, Next, After, Enabled, MoveAdmissible, StillSo, RootsExclusive, KeysExclusive;
    MoveIsAtomic(env, hash, s, m);
    EvolvesReflexive(s.db);
    if StepOf(s, m).Some? { StepKeeps(env, s.db, StepOf(s, m).value); }
  }

  lemma LocksKept(env: Env, hash: Hash, s: State, m: Move)
    requires RootsExclusive(s) && KeysExclusive(hash, s) && Enabled(env, hash, s, m)
    ensures RootsExclusive(After(env, hash, s, m)) && KeysExclusive(hash, After(env, hash, s, m))
  {
    hide Validated, NextSeq, PlanFork, CommitDb, Next;
  }

  /** The transaction that moved has read what it now relies on. */
  lemma MoverSo(env: Env, hash: Hash, s: State, m: Move, i: nat)
    requires LockInv(env, hash, s) && MoveAdmissible(m) && Enabled(env, hash, s, m)
    requires i in After(env, hash, s, m).txs
    requires i !in s.txs || After(env, hash, s, m).txs[i] != s.txs[i] || (m.Commit? && m.id == i)
    ensures StillSo(env, After(env, hash, s, m).db, After(env, hash, s, m).txs[i])
  {
    hide Inv, RootsExclusive, KeysExclusive, Validated, NextSeq, PlanFork, CommitDb, Next, Conversations.Admissible;
    if i in s.txs { assert StillSo(env, s.db, s.txs[i]); }
  }

  // ---------------------------------------------------------------------------------------
  // Interleaved runs refine atomic runs
  // ---------------------------------------------------------------------------------------

  /** The moves lead from `s` to `t`, each enabled where it is taken. */
  ghost predicate Leads(env: Env, hash: Hash, s: State, moves: seq<Move>, t: State)
    decreases |moves|
  {
    if |moves| == 0 then t == s
    else
      var prefix, m := moves[..|moves| - 1], moves[|moves| - 1];
      exists u :: Leads(env, hash, s, prefix, u) && Takes(env, hash, u, m, t)
  }

  ghost predicate Takes(env: Env, hash: Hash, u: State, m: Move, t: State)
  {
    MoveAdmissible(m) && Enabled(env, hash, u, m) && t == After(env, hash, u, m)
  }

  ghost predicate AtomicRun(env: Env, db: Db, run: seq<Step>, later: Db)
    requires Inv(env, db)
  {
    AllAdmissible(run) && Run(env, db, run) == later
  }

  lemma NoMoves(env: Env, db: Db)
    requires Inv(env, db)
    ensures AtomicRun(env, db, [], db)
  {
    hide Inv;
  }

  lemma OneMore(env: Env, db: Db, run: seq<Step>, mid: Db, step: Step)
    requires Inv(env, db) && AtomicRun(env, db, run, mid) && Conversations.Admissible(step)
    ensures AtomicRun(env, db, run + [step], Next(env, mid, step))
  {
    hide Inv, Next, Evolves, Conversations.Admissible;
    var longer := run + [step];
    assert longer[..|longer| - 1] == run && longer[|longer| - 1] == step;
    assert AllAdmissible(longer);
    RunLast(env, db, longer);
  }

  /** However the statements of the transactions interleave, with each other and with the worker, the
      database they reach is one that whole transactions, one after the other, reach too. */
  lemma {:induction false} InterleavingIsSerial(env: Env, hash: Hash, s: State, moves: seq<Move>, t: State)
    requires LockInv(env, hash, s) && Leads(env, hash, s, moves, t)
    ensures LockInv(env, hash, t) && Inv(env, s.db)
    ensures exists run :: AtomicRun(env, s.db, run, t.db)
    decreases |moves|
  {
    hide *;
    InvHere(env, hash, s);
    if |moves| == 0 {
      LeadsNowhere(env, hash, s, moves, t);
      NoMoves(env, s.db);
    } else {
      var prefix, m := moves[..|moves| - 1], moves[|moves| - 1];
      var u := LastMove(env, hash, s, moves, t);
      InterleavingIsSerial(env, hash, s, prefix, u);
      TakesKeeps(env, hash, u, m, t);
      var run :| AtomicRun(env, s.db, run, u.db);
      if StepOf(u, m).Some? { OneMore(env, s.db, run, u.db, StepOf(u, m).value); }
    }
  }

  lemma LeadsNowhere(env: Env, hash: Hash, s: State, moves: seq<Move>, t: State)
    requires Leads(env, hash, s, moves, t) && |moves| == 0
    ensures s == t
  {
  }

  lemma LastMove(env: Env, hash: Hash, s: State, moves: seq<Move>, t: State) returns (u: State)
    requires Leads(env, hash, s, moves, t) && |moves| > 0
    ensures Leads(env, hash, s, moves[..|moves| - 1], u) && Takes(env, hash, u, moves[|moves| - 1], t)
  {
    hide Takes;
    var prefix, m := moves[..|moves| - 1], moves[|moves| - 1];
    u :| Leads(env, hash, s, prefix, u) && Takes(env, hash, u, m, t);
  }

  lemma InvHere(env: Env, hash: Hash, s: State)
    requires LockInv(env, hash, s)
    ensures Inv(env, s.db)
  {
  }

  lemma TakesKeeps(env: Env, hash: Hash, u: State, m: Move, t: State)
    requires LockInv(env, hash, u) && Takes(env, hash, u, m, t)
    ensures LockInv(env, hash, t)
    ensures StepOf(u, m).None? ==> t.db == u.db
    ensures StepOf(u, m).Some? ==>
              Conversations.Admissible(StepOf(u, m).value) && t.db == Next(env, u.db, StepOf(u, m).value)
  {
    hide LockInv, After, Enabled, Next, MoveAdmissible, Conversations.Admissible;
    MoveKeeps(env, hash, u, m);
    MoveIsAtomic(env, hash, u, m);
  }

  /** In every interleaving of locked transactions, worker steps and deletions: once a root has left
      the addressable states, no branch and no turn is committed under it. */
  lemma NothingCommitsUnderDeletedRoot(env: Env, hash: Hash, s: State, moves: seq<Move>, t: State, convId: Text)
    requires LockInv(env, hash, s) && Leads(env, hash, s, moves, t) && Fenced(s.db, convId)
    ensures Fenced(t.db, convId) && NothingAdded(s.db, t.db, convId)
  {
    hide *;
    InterleavingIsSerial(env, hash, s, moves, t);
    var run :| AtomicRun(env, s.db, run, t.db);
    SerialFence(env, s.db, run, t.db, convId);
  }

  lemma SerialFence(env: Env, db: Db, run: seq<Step>, later: Db, convId: Text)
    requires Inv(env, db) && AtomicRun(env, db, run, later) && Fenced(db, convId)
    ensures Fenced(later, convId) && NothingAdded(db, later, convId)
  {
    hide Inv, Fenced, NothingAdded, AllAdmissible, Run;
    NothingUnderDeletedRoot(env, db, run, convId);
  }

  // ---------------------------------------------------------------------------------------
  // No deadlock
  // ---------------------------------------------------------------------------------------

  /** Transaction `i` waits for a lock that `j` holds. */
  predicate WaitsFor(hash: Hash, s: State, i: nat, j: nat)
    requires i in s.txs && j in s.txs
  {
    var a, b := s.txs[i], s.txs[j];
    && i != j
    && ((a.phase.Waiting? && HoldsRoot(b) && RootId(b.job) == RootId(a.job))
        || (a.phase.Rooted? && (a.job.SendJob? || a.job.ForkJob?) && HoldsKey(b)
            && hash(BranchId(b.job)) == hash(BranchId(a.job))))
  }

  ghost predicate WaitsInside(hash: Hash, s: State, d: set<nat>, i: nat)
    requires d <= s.txs.Keys && i in d
  {
    exists j | j in d :: WaitsFor(hash, s, i, j)
  }

  /** In no state, whatever the branch keys collide on, is there a set of transactions each of which
      waits for another of the set. */
  lemma NoDeadlock(hash: Hash, s: State, d: set<nat>)
    requires d <= s.txs.Keys && d != {}
    ensures exists i | i in d :: !WaitsInside(hash, s, d, i)
  {
    if i :| i in d && HoldsKey(s.txs[i]) {
      assert !WaitsInside(hash, s, d, i);
    } else if i :| i in d && HoldsRoot(s.txs[i]) {
      assert !WaitsInside(hash, s, d, i);
    } else {
      var i :| i in d;
      assert !WaitsInside(hash, s, d, i);
    }
  }

  /** The number of moves a transaction may still take. */
  function Remaining(p: Phase): nat
  {
    match p
    case Waiting => 4
    case Rooted => 3
    case Branched => 2
    case Numbered(_) => 1
    case Planned(_) => 1
    case Finished => 0
  }

  /** Every move of a transaction brings it closer to its end and leaves the others where they are, so
      a transaction takes at most four. */
  lemma EveryMoveAdvances(env: Env, hash: Hash, s: State, m: Move)
    requires Enabled(env, hash, s, m) && !m.Begin? && !m.Free?
    ensures m.id in s.txs && After(env, hash, s, m).txs.Keys == s.txs.Keys
    ensures Remaining(After(env, hash, s, m).txs[m.id].phase) < Remaining(s.txs[m.id].phase)
    ensures forall j | j in s.txs && j != m.id :: After(env, hash, s, m).txs[j] == s.txs[j]
  {
    hide Validated, PlanFork, CommitDb, NextSeq, Next;
  }

  /** The move a transaction takes next when nothing refuses or blocks it. */
  function NextMove(s: State, id: nat): Move
    requires id in s.txs
  {
    var tx := s.txs[id];
    match tx.phase
    case Waiting => TakeRoot(id)
    case Rooted => if tx.job.SendJob? || tx.job.ForkJob? then TakeBranch(id) else Commit(id)
    case Branched => if tx.job.SendJob? then ReadNumber(id) else ReadPlan(id)
    case _ => Commit(id)
  }

  /** A check of its own fails: the transaction throws and rolls back. */
  predicate Throws(env: Env, s: State, id: nat)
    requires id in s.txs
  {
    var tx := s.txs[id];
    || (tx.phase.Rooted? && !Validated(env, s.db, tx.job))
    || (tx.phase.Branched? && tx.job.ForkJob?
        && PlanFork(s.db, tx.job.scope, tx.job.convId, tx.job.fork, tx.job.now).PlanRefused?)
  }

  /** While any transaction is unfinished, one of them can take its next step or throws by itself: the
      locks alone never stop them all. */
  lemma SomeoneProceeds(env: Env, hash: Hash, s: State)
    requires LockInv(env, hash, s) && exists i | i in s.txs :: !s.txs[i].phase.Finished?
    ensures exists i | i in s.txs && !s.txs[i].phase.Finished? ::
              Throws(env, s, i) || Enabled(env, hash, s, NextMove(s, i))
  {
    hide Inv, RootsExclusive, KeysExclusive, StillSo;
    var d := set i | i in s.txs && !s.txs[i].phase.Finished?;
    var k :| k in s.txs && !s.txs[k].phase.Finished?;
    assert k in d;
    NoDeadlock(hash, s, d);
    var i :| i in d && !WaitsInside(hash, s, d, i);
    Unblocked(env, hash, s, d, i);
  }

  lemma Unblocked(env: Env, hash: Hash, s: State, d: set<nat>, i: nat)
    requires LockInv(env, hash, s) && d == (set j | j in s.txs && !s.txs[j].phase.Finished?)
    requires i in d && !WaitsInside(hash, s, d, i)
    ensures Throws(env, s, i) || Enabled(env, hash, s, NextMove(s, i))
  {
    hide Inv, RootsExclusive, KeysExclusive, Validated, PlanFork, Conversations.Admissible, NextSeq;
    var tx := s.txs[i];
    assert StillSo(env, s.db, tx);
    forall j | j in s.txs && j != i && HoldsRoot(s.txs[j]) ensures j in d && !WaitsFor(hash, s, i, j) {}
    if tx.phase.Planned? { PlanPins(s.db, tx.job.scope, tx.job.convId, tx.job.fork, tx.job.now); }
  }
}
