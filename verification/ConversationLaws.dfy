/** What holds over whole runs of the conversation store: replays of a fork and of a send, and the
    fence of a deleted root. */
module ConversationLaws {
  import opened Wrappers
  import opened Utf16
  import opened CanonicalJson
  import opened Intents
  import opened Conversations
  import opened ConversationSteps

  /** In every interleaving: one root branch per conversation, turns numbered 1..n on every branch,
      an attempt 1 and a current attempt of its own for every turn, and every fork pinned to an
      attempt of its parent branch in a state its boundary mode allows. */
  lemma ReachedShape(env: Env, run: seq<Step>)
    requires AllAdmissible(run)
    ensures var db := Reached(env, run);
            && OneRoot(db) && TurnsDense(db) && ClientTurnsUnique(db)
            && (forall t | t in db.turns :: TurnOk(db, t))
            && (forall b | b in db.branches :: BranchOk(db, b) && ChildOk(db, b))
  {
    hide *;
    ShapeOf(env, Reached(env, run));
  }

  lemma ShapeOf(env: Env, db: Db)
    requires Inv(env, db)
    ensures OneRoot(db) && TurnsDense(db) && ClientTurnsUnique(db) && AttemptsUnique(db)
    ensures forall t | t in db.turns :: TurnOk(db, t)
    ensures forall b | b in db.branches :: BranchOk(db, b) && ChildOk(db, b)
    ensures forall k | k in db.bindings :: BindingOk(env, db, k)
    ensures forall c | c in db.contents :: ContentRowOk(db, c)
  {
    hide OneRoot, TurnsDense, ClientTurnsUnique, AttemptsUnique, ForksBound, BranchOk, ItemOk, BindingOk, TurnOk,
         AttemptOk, ChildOk, ContentRowOk;
  }

  // ---------------------------------------------------------------------------------------
  // Fork replay
  // ---------------------------------------------------------------------------------------

  /** The same request, up to the casing of its identifiers. */
  predicate SameFork(q: ForkRequest, r: ForkRequest)
  {
    && Lower(q.clientForkId) == Lower(r.clientForkId) && Lower(q.parentId) == Lower(r.parentId)
    && Lower(q.turnId) == Lower(r.turnId) && Lower(q.attemptId) == Lower(r.attemptId) && q.mode == r.mode
    && q.provider == r.provider && q.surface == r.surface && q.model == r.model
  }

  lemma ChildUnique(db: Db, b: Text, t: Text, a: Text)
    requires TurnsDense(db) && AttemptsUnique(db) && IsChild(db, b, t, a)
    ensures ChildOf(db, b) == Some((t, a))
  {
    forall u, c | IsChild(db, b, u, c) ensures u == t && c == a {
      assert TurnAt(db, b, 1, u) && TurnAt(db, b, 1, t);
      assert HasSeq(db, t, 1, c) && HasSeq(db, t, 1, a);
    }
  }

  /** What a fork minted is found again at every later state. */
  lemma ChildStays(env: Env, db: Db, later: Db, b: Text, t: Text, a: Text)
    requires Inv(env, later) && Evolves(db, later) && IsChild(db, b, t, a)
    ensures ChildOf(later, b) == Some((t, a))
  {
    hide Inv, Evolves, IsChild, ChildOf;
    ShapeOf(env, later);
    ChildPersists(db, later, b, t, a);
    ChildUnique(later, b, t, a);
  }

  /** Resolution does not change: the same request plans the same fork while the root is addressable. */
  lemma PlanStays(db: Db, later: Db, scope: Scope, convId: Text, convId': Text, q: ForkRequest, q': ForkRequest,
                  now: Text, now': Text)
    requires Evolves(db, later) && SameFork(q, q') && Lower(convId) == Lower(convId')
    requires PlanFork(db, scope, convId, q, now).Plan?
    requires Root(later, scope, convId').Some? && IsAddressable(Root(later, scope, convId').value.status)
    ensures PlanFork(later, scope, convId', q', now')
         == Plan(PlanFork(db, scope, convId, q, now).branch.(createdAt := now'))
  {
    var a := Lower(q.attemptId);
    assert later.attempts[a].(state := db.attempts[a].state) == db.attempts[a];
  }

  lemma SameIntent(env: Env, b: Branch, c: Branch)
    requires b.pin.Some? && c.(createdAt := b.createdAt) == b
    ensures BranchHash(env, c) == BranchHash(env, b)
  {
  }

  /** What a committed fork leaves: its binding, its branch, and for a regeneration its child. */
  lemma CommittedFork(env: Env, db: Db, scope: Scope, convId: Text, q: ForkRequest, draws: Draws, now: Text)
    requires Inv(env, db) && ForkTx(env, db, scope, convId, q, draws, now).ForkCommitted?
    ensures var r := ForkTx(env, db, scope, convId, q, draws, now);
            var key := BindingKey(Lower(convId), Lower(q.clientForkId));
            && PlanFork(db, scope, convId, q, now) == Plan(r.view.branch) && r.view.branch.pin.Some?
            && r.view.branch.convId == key.convId && r.view.branch.pin.value.mode == q.mode
            && key in r.db.bindings && r.db.bindings[key] == Binding(BranchHash(env, r.view.branch), r.view.branchId)
            && r.view.branchId in r.db.branches && r.db.branches[r.view.branchId] == r.view.branch
            && (q.mode.AfterAttempt? ==> r.view.child.None?)
            && (q.mode.BeforeAttemptOutput? ==>
                  r.view.child.Some? && IsChild(r.db, r.view.branchId, r.view.child.value.0, r.view.child.value.1))
  {
    hide RowsInv, Evolves, PlanFork, BranchHash, MintChild, IsChild, PinOk;
    PlanPins(db, scope, convId, q, now);
    ForkKeeps(env, db, scope, convId, q, draws, now);
    var b := PlanFork(db, scope, convId, q, now).branch;
    var key := BindingKey(Lower(convId), Lower(q.clientForkId));
    var db1 := AddFork(db, draws(0), b, key, BranchHash(env, b));
    if q.mode.BeforeAttemptOutput? { MintBindings(env, db, db1, draws(0), b, draws); }
  }

  lemma MintBindings(env: Env, db: Db, db1: Db, id: Text, b: Branch, draws: Draws)
    requires b.pin.Some? && MintChild(db1, id, b, draws).Minted?
    ensures MintChild(db1, id, b, draws).db.bindings == db1.bindings
            && MintChild(db1, id, b, draws).db.branches == db1.branches
  {
    hide CopyItems;
    var source := b.pin.value.turnId;
    var payload := db1.contents[db1.turns[source].configId].payload;
    var db2 := AddTurn(AddContent(db1, draws(1), b.convId, payload), draws(2),
                       Turn(b.convId, id, draws(4), 1, draws(3), draws(1)));
    CopyFrame(db2, b.convId, source, draws(2), OwnedSeqs(db1, source), draws, 5);
  }

  lemma {:induction false} CopyFrame(db: Db, convId: Text, source: Text, child: Text, seqs: seq<nat>, draws: Draws,
                                     k: nat)
    requires CopyItems(db, convId, source, child, seqs, draws, k).Minted?
    ensures var r := CopyItems(db, convId, source, child, seqs, draws, k).db;
            r.bindings == db.bindings && r.branches == db.branches
    decreases |seqs|
  {
    if |seqs| > 0 {
      var key := ItemKey(source, None, seqs[0]);
      if key !in db.items {
        CopyFrame(db, convId, source, child, seqs[1..], draws, k);
      } else {
        var db1 := AddContent(db, draws(k), convId, db.contents[db.items[key].contentId].payload);
        var db2 := AddItem(db1, ItemKey(child, None, seqs[0]), Item(db.items[key].itemType, draws(k)));
        CopyFrame(db2, convId, source, child, seqs[1..], draws, k + 1);
      }
    }
  }

  /** A fork that committed is answered with the identical branch and child at every later state in
      which the conversation is addressable, whatever happened in between, and the repeat changes
      nothing: its candidate transaction loses, and the committed binding answers at any still later
      state. */
  lemma ForkReplayIsIdentical(env: Env, db: Db, scope: Scope, convId: Text, q: ForkRequest, draws: Draws, now: Text,
                              later: Db, convId': Text, q': ForkRequest, draws': Draws, now': Text, answer: Db)
    requires Inv(env, db) && ForkTx(env, db, scope, convId, q, draws, now).ForkCommitted?
    requires Inv(env, later) && Evolves(ForkTx(env, db, scope, convId, q, draws, now).db, later)
    requires SameFork(q, q') && Lower(convId) == Lower(convId') && draws'(0) !in later.branches
    requires Root(later, scope, convId').Some? && IsAddressable(Root(later, scope, convId').value.status)
    requires Inv(env, answer) && Evolves(later, answer)
    ensures var view := ForkTx(env, db, scope, convId, q, draws, now).view;
            && view.branch.pin.Some?
            && ForkTx(env, later, scope, convId', q', draws', now') == ForkLost(BranchHash(env, view.branch))
            && Next(env, later, ForkStep(scope, convId', q', draws', now')) == later
            && ResolveFork(answer, convId', q'.clientForkId, BranchHash(env, view.branch)) == ForkReplay(view)
  {
    hide Inv, Evolves, PlanFork, BranchHash, IsChild, ChildOf, Root;
    var r := ForkTx(env, db, scope, convId, q, draws, now);
    CommittedFork(env, db, scope, convId, q, draws, now);
    ForkKeeps(env, db, scope, convId, q, draws, now);
    EvolvesTransitive(db, r.db, later);
    PlanStays(db, later, scope, convId, convId', q, q', now, now');
    SameIntent(env, r.view.branch, r.view.branch.(createdAt := now'));
    BoundStays(r.db, later, BindingKey(Lower(convId), Lower(q.clientForkId)));
    EvolvesTransitive(r.db, later, answer);
    BoundStays(r.db, answer, BindingKey(Lower(convId), Lower(q.clientForkId)));
    if q.mode.BeforeAttemptOutput? {
      ChildStays(env, r.db, answer, r.view.branchId, r.view.child.value.0, r.view.child.value.1);
    }
  }

  lemma BoundStays(db: Db, later: Db, key: BindingKey)
    requires Evolves(db, later) && key in db.bindings
    ensures key in later.bindings && later.bindings[key] == db.bindings[key]
    ensures db.bindings[key].branchId in db.branches ==>
              db.bindings[key].branchId in later.branches
              && later.branches[db.bindings[key].branchId] == db.branches[db.bindings[key].branchId]
  {
  }

  /** Two fork branches of one identity, pinned to one attempt in one mode, up to the casing of ids. */
  predicate SameResolved(a: Branch, b: Branch)
    requires a.pin.Some? && b.pin.Some?
  {
    var p, q := a.pin.value, b.pin.value;
    && Lower(a.convId) == Lower(b.convId) && Lower(p.parentId) == Lower(q.parentId)
    && Lower(p.turnId) == Lower(q.turnId) && Lower(p.attemptId) == Lower(q.attemptId) && p.mode == q.mode
    && a.provider == b.provider && a.surface == b.surface && a.model == b.model
  }

  lemma IntentsDecide(a: Branch, b: Branch)
    requires a.pin.Some? && b.pin.Some?
    ensures IntentOf(a) == IntentOf(b) <==> SameResolved(a, b)
  {
    hide Lower;
  }

  /** Losing the reservation is always answered from the committed binding: with its branch if the
      resolved forks are the same, with a conflict otherwise; never with an invariant break. */
  lemma LostForkIsAnswered(env: Env, db: Db, scope: Scope, convId: Text, q: ForkRequest, draws: Draws, now: Text,
                           answer: Db)
    requires CollisionFree(env.crypto) && Inv(env, db) && Inv(env, answer) && Evolves(db, answer)
    requires ForkTx(env, db, scope, convId, q, draws, now).ForkLost?
    ensures var key := BindingKey(Lower(convId), Lower(q.clientForkId));
            && key in db.bindings && db.bindings[key].branchId in db.branches
            && var id := db.bindings[key].branchId;
            var bound := db.branches[id];
            var plan := PlanFork(db, scope, convId, q, now);
            var r := ResolveFork(answer, convId, q.clientForkId, ForkTx(env, db, scope, convId, q, draws, now).hash);
            && plan.Plan? && plan.branch.pin.Some? && bound.pin.Some?
            && r == if SameResolved(bound, plan.branch) then
                      ForkReplay(ForkView(id, bound,
                                          if bound.pin.value.mode.AfterAttempt? then None else ChildOf(db, id)))
                    else ForkConflict
  {
    hide Inv, Evolves, PlanFork, IsChild, ChildOf, IntentOf, CollisionFree, ForkIntentHash, SameResolved;
    PlanPins(db, scope, convId, q, now);
    var key := BindingKey(Lower(convId), Lower(q.clientForkId));
    ShapeOf(env, db);
    assert BindingOk(env, db, key);
    var id := db.bindings[key].branchId;
    BoundStays(db, answer, key);
    ForkHashDecides(env.crypto, IntentOf(db.branches[id]), IntentOf(PlanFork(db, scope, convId, q, now).branch));
    IntentsDecide(db.branches[id], PlanFork(db, scope, convId, q, now).branch);
    if db.branches[id].pin.value.mode.BeforeAttemptOutput? {
      assert ChildOk(db, id);
      var t, a :| IsChild(db, id, t, a);
      ChildStays(env, db, answer, id, t, a);
      ChildHere(db, id, t, a);
    }
  }

  lemma ChildHere(db: Db, b: Text, t: Text, a: Text)
    requires TurnsDense(db) && AttemptsUnique(db) && IsChild(db, b, t, a)
    ensures ChildOf(db, b) == Some((t, a))
  {
    ChildUnique(db, b, t, a);
  }

  /** A regeneration fork copies the pinned turn's input into the child turn it reports. */
  lemma ForkCopiesInput(env: Env, db: Db, scope: Scope, convId: Text, q: ForkRequest, draws: Draws, now: Text)
    requires Inv(env, db) && q.mode.BeforeAttemptOutput? && ForkTx(env, db, scope, convId, q, draws, now).ForkCommitted?
    ensures var r := ForkTx(env, db, scope, convId, q, draws, now);
            r.view.child.Some? && CopiesInput(db, r.db, Lower(convId), Lower(q.turnId), r.view.child.value.0)
  {
    hide RowsInv, Evolves, PlanFork, BranchHash, MintChild, CopiesInput, PinOk;
    PlanPins(db, scope, convId, q, now);
    PlanNames(db, scope, convId, q, now);
    var b := PlanFork(db, scope, convId, q, now).branch;
    var key := BindingKey(Lower(convId), Lower(q.clientForkId));
    var db1 := AddFork(db, draws(0), b, key, BranchHash(env, b));
    AddForkKeeps(env, db, draws(0), b, key);
    MintCopies(env, db1, draws(0), b, draws);
    CopiesFrame(db, db1, MintChild(db1, draws(0), b, draws).db, b.convId, b.pin.value.turnId, draws(2));
  }

  lemma PlanNames(db: Db, scope: Scope, convId: Text, q: ForkRequest, now: Text)
    requires PlanFork(db, scope, convId, q, now).Plan?
    ensures var b := PlanFork(db, scope, convId, q, now).branch;
            b.pin.Some? && b.pin.value.turnId == Lower(q.turnId) && b.convId == Lower(convId)
  {
  }

  lemma CopiesFrame(db: Db, db1: Db, r: Db, convId: Text, source: Text, child: Text)
    requires CopiesInput(db1, r, convId, source, child)
    requires db1.turns == db.turns && db1.items == db.items && db1.contents == db.contents
    ensures CopiesInput(db, r, convId, source, child)
  {
    forall n: nat | ItemKey(source, None, n) in db.items
      ensures CopiedItem(db, r, convId, ItemKey(source, None, n), ItemKey(child, None, n))
    {
      assert CopiedItem(db1, r, convId, ItemKey(source, None, n), ItemKey(child, None, n));
    }
  }

  // ---------------------------------------------------------------------------------------
  // Send idempotency
  // ---------------------------------------------------------------------------------------

  /** A send committed under a client turn id: the turn, with the request as its stored input. */
  ghost predicate SentAs(db: Db, conv: Text, clientTurnId: Text, branchId: Text, t: Text, native: Json)
  {
    && HasClientTurn(db, conv, clientTurnId, t) && db.turns[t].branchId == branchId
    && db.turns[t].configId in db.contents && db.contents[db.turns[t].configId].convId == conv
    && db.contents[db.turns[t].configId].payload == Document(native)
  }

  lemma CommittedSend(env: Env, db: Db, scope: Scope, convId: Text, q: SendRequest, draws: Draws)
    requires SendTx(env, db, scope, convId, q, draws).SendCommitted?
    ensures var r := SendTx(env, db, scope, convId, q, draws);
            && SentAs(r.db, Lower(convId), Lower(q.clientTurnId), Lower(q.branchId), r.turnId, q.native)
            && r.db.contents[r.db.turns[r.turnId].configId].active
            && r.db.turns[r.turnId].turnSeq == NextSeq(db, Lower(q.branchId))
  {
    hide NextSeq;
  }

  lemma SentStays(db: Db, later: Db, conv: Text, clientTurnId: Text, branchId: Text, t: Text, native: Json)
    requires Evolves(db, later) && SentAs(db, conv, clientTurnId, branchId, t, native)
    ensures SentAs(later, conv, clientTurnId, branchId, t, native)
  {
    assert later.turns[t].(currentId := db.turns[t].currentId) == db.turns[t];
    var c := db.turns[t].configId;
    assert later.contents[c].(active := db.contents[c].active) == db.contents[c];
  }

  /** Equal intents: one branch, and native requests equal up to the order of object keys. */
  ghost predicate SameSend(branchId: Text, native: Json, q: SendRequest)
  {
    branchId == Lower(q.branchId) && Same(native, q.native)
  }

  /** How a lost reservation is answered when the key names a turn holding `native`. */
  lemma ResolvedSend(env: Env, db: Db, convId: Text, q: SendRequest, readable: bool, branchId: Text, t: Text,
                     native: Json)
    requires CollisionFree(env.crypto) && Inv(env, db) && PayloadOk(Document(q.native))
    requires SentAs(db, Lower(convId), Lower(q.clientTurnId), branchId, t, native) && Lower(branchId) == branchId
    ensures var active := db.contents[db.turns[t].configId].active;
            ResolveSend(env, db, convId, q, readable)
            == if readable && active && SameSend(branchId, native, q) then SendReplay(t) else SendConflict
  {
    hide Inv, CollisionFree, SendIntentHash, ContentRowOk;
    ShapeOf(env, db);
    var conv := Lower(convId);
    forall u | HasClientTurn(db, conv, Lower(q.clientTurnId), u) ensures u == t {}
    PayloadHere(env, db, db.turns[t].configId);
    SendHashDecides(env.crypto, BuildSendIntent(convId, branchId, native),
                    BuildSendIntent(convId, q.branchId, q.native));
  }

  lemma PayloadHere(env: Env, db: Db, c: Text)
    requires Inv(env, db) && c in db.contents
    ensures PayloadOk(db.contents[c].payload)
  {
    hide RowsInv, PayloadOk;
    ContentRow(env, db, c);
  }

  /** Once a send committed, the same client turn id is answered from that turn at every later state
      that still accepts sends on the branch named: as a replay exactly when the stored request is
      readable and the intents are equal, as a conflict otherwise; and the repeat changes nothing. */
  lemma SendReplayIsExact(env: Env, db: Db, scope: Scope, convId: Text, q: SendRequest, draws: Draws,
                          later: Db, convId': Text, q': SendRequest, draws': Draws, answer: Db, readable: bool)
    requires CollisionFree(env.crypto) && Inv(env, db) && SendTx(env, db, scope, convId, q, draws).SendCommitted?
    requires Inv(env, later) && Evolves(SendTx(env, db, scope, convId, q, draws).db, later)
    requires Inv(env, answer) && Evolves(later, answer)
    requires Lower(convId) == Lower(convId') && Lower(q.clientTurnId) == Lower(q'.clientTurnId)
    requires PayloadOk(Document(q.native)) && PayloadOk(Document(q'.native)) && draws'(0) !in later.contents
    requires !SendTx(env, later, scope, convId', q', draws').SendRefused?
    ensures var t := SendTx(env, db, scope, convId, q, draws).turnId;
            && SendTx(env, later, scope, convId', q', draws') == SendLost
            && Next(env, later, SendStep(scope, convId', q', draws')) == later
            && t in answer.turns && answer.turns[t].configId in answer.contents
            && ResolveSend(env, answer, convId', q', readable)
               == if readable && answer.contents[answer.turns[t].configId].active
                     && SameSend(Lower(q.branchId), q.native, q')
                  then SendReplay(t) else SendConflict
  {
    hide Inv, Evolves, CollisionFree, Root, BranchIn, Dispatchable, NextSeq, ResolveSend, SameSend;
    var r := SendTx(env, db, scope, convId, q, draws);
    var conv, key, branch := Lower(convId), Lower(q.clientTurnId), Lower(q.branchId);
    CommittedSend(env, db, scope, convId, q, draws);
    SentStays(r.db, later, conv, key, branch, r.turnId, q.native);
    SentStays(later, answer, conv, key, branch, r.turnId, q.native);
    assert HasClientTurn(later, conv, key, r.turnId);
    LowerIdempotent(q.branchId);
    ResolvedSend(env, answer, convId', q', readable, branch, r.turnId, q.native);
  }

  /** Losing the reservation is never a transient loss: the committed turn is found at every later
      state, so the answer is a replay of it or a conflict. */
  lemma LostSendFindsTheTurn(env: Env, db: Db, scope: Scope, convId: Text, q: SendRequest, draws: Draws, answer: Db,
                             readable: bool)
    requires Inv(env, db) && Inv(env, answer) && Evolves(db, answer)
    requires SendTx(env, db, scope, convId, q, draws).SendLost?
    ensures exists t :: HasClientTurn(db, Lower(convId), Lower(q.clientTurnId), t)
              && (ResolveSend(env, answer, convId, q, readable) == SendReplay(t)
                  || ResolveSend(env, answer, convId, q, readable) == SendConflict)
  {
    hide Inv, Evolves, SendIntentHash, NextSeq, Root, BranchIn, Dispatchable;
    var t :| HasClientTurn(db, Lower(convId), Lower(q.clientTurnId), t);
    ClientTurnStays(db, answer, Lower(convId), Lower(q.clientTurnId), t);
    ShapeOf(env, answer);
    forall u | HasClientTurn(answer, Lower(convId), Lower(q.clientTurnId), u) ensures u == t {}
  }

  lemma ClientTurnStays(db: Db, later: Db, conv: Text, key: Text, t: Text)
    requires Evolves(db, later) && HasClientTurn(db, conv, key, t)
    ensures HasClientTurn(later, conv, key, t)
  {
    assert later.turns[t].(currentId := db.turns[t].currentId) == db.turns[t];
  }

  // ---------------------------------------------------------------------------------------
  // The fence of a deleted root
  // ---------------------------------------------------------------------------------------

  predicate Fenced(db: Db, convId: Text)
  {
    convId in db.convs && !IsAddressable(db.convs[convId].status)
  }

  /** No branch and no turn of the conversation is in `later` that was not in `db`. */
  ghost predicate NothingAdded(db: Db, later: Db, convId: Text)
  {
    && (forall b | b in later.branches && later.branches[b].convId == convId :: b in db.branches)
    && (forall t | t in later.turns && later.turns[t].convId == convId :: t in db.turns)
  }

  lemma FencedStep(env: Env, db: Db, step: Step, convId: Text)
    requires Inv(env, db) && Admissible(step) && Fenced(db, convId)
    ensures Fenced(Next(env, db, step), convId) && NothingAdded(db, Next(env, db, step), convId)
  {
    hide Inv, Evolves, Next, Fenced, NothingAdded, Admissible;
    StepKeeps(env, db, step);
    FenceStays(db, Next(env, db, step), convId);
    match step
    case ForkStep(scope, c, fork, draws, now) => FencedForkStep(env, db, scope, c, fork, draws, now, convId);
    case SendStep(scope, c, send, draws) => FencedSend(env, db, scope, c, send, draws, convId);
    case CreateStep(scope, create, draws, now) => FencedCreate(env, db, scope, create, draws, now, convId);
    case _ => OtherStep(env, db, step, convId);
  }

  /** The other steps add neither branches nor turns. */
  lemma OtherStep(env: Env, db: Db, step: Step, convId: Text)
    requires !step.ForkStep? && !step.SendStep? && !step.CreateStep?
    ensures NothingAdded(db, Next(env, db, step), convId)
  {
    hide NothingAdded, StatusEdge, AttemptEdge, HasSeq, IsAddressable;
    var later := Next(env, db, step);
    assert later.branches == db.branches;
    assert later.turns.Keys == db.turns.Keys;
    KeysNothing(db, later, convId);
  }

  lemma KeysNothing(db: Db, later: Db, convId: Text)
    requires later.branches == db.branches && later.turns.Keys == db.turns.Keys
    ensures NothingAdded(db, later, convId)
  {
    forall t | t in later.turns ensures t in db.turns { assert t in later.turns.Keys; }
  }

  lemma FencedForkStep(env: Env, db: Db, scope: Scope, c: Text, q: ForkRequest, draws: Draws, now: Text, convId: Text)
    requires Fenced(db, convId)
    ensures NothingAdded(db, Next(env, db, ForkStep(scope, c, q, draws, now)), convId)
  {
    hide ForkTx;
    if ForkTx(env, db, scope, c, q, draws, now).ForkCommitted? { FencedFork(env, db, scope, c, q, draws, now, convId); }
  }

  lemma FenceStays(db: Db, later: Db, convId: Text)
    requires Evolves(db, later) && Fenced(db, convId)
    ensures Fenced(later, convId)
  {
  }

  lemma FencedSend(env: Env, db: Db, scope: Scope, c: Text, q: SendRequest, draws: Draws, convId: Text)
    requires Fenced(db, convId)
    ensures NothingAdded(db, Next(env, db, SendStep(scope, c, q, draws)), convId)
  {
    hide NextSeq, Dispatchable;
  }

  lemma FencedCreate(env: Env, db: Db, scope: Scope, q: CreateRequest, draws: Draws, now: Text, convId: Text)
    requires Fenced(db, convId)
    ensures NothingAdded(db, Next(env, db, CreateStep(scope, q, draws, now)), convId)
  {
    hide IsAdmissibleNewIdentity;
  }

  lemma FencedFork(env: Env, db: Db, scope: Scope, c: Text, q: ForkRequest, draws: Draws, now: Text, convId: Text)
    requires Fenced(db, convId) && ForkTx(env, db, scope, c, q, draws, now).ForkCommitted?
    ensures NothingAdded(db, ForkTx(env, db, scope, c, q, draws, now).db, convId)
  {
    hide PlanFork, BranchHash, MintChild, IsAdmissibleNewIdentity;
    PlanOpen(db, scope, c, q, now);
    var b := PlanFork(db, scope, c, q, now).branch;
    var db1 := AddFork(db, draws(0), b, BindingKey(Lower(c), Lower(q.clientForkId)), BranchHash(env, b));
    if q.mode.BeforeAttemptOutput? { MintTurns(db1, draws(0), b, draws); }
  }

  lemma PlanOpen(db: Db, scope: Scope, c: Text, q: ForkRequest, now: Text)
    requires PlanFork(db, scope, c, q, now).Plan?
    ensures var b := PlanFork(db, scope, c, q, now).branch;
            b.pin.Some? && b.convId in db.convs && IsAddressable(db.convs[b.convId].status)
  {
  }

  lemma MintTurns(db: Db, id: Text, b: Branch, draws: Draws)
    requires b.pin.Some? && MintChild(db, id, b, draws).Minted?
    ensures var r := MintChild(db, id, b, draws).db;
            && r.branches == db.branches
            && (forall t | t in r.turns && t !in db.turns :: r.turns[t].convId == b.convId)
  {
    hide CopyItems;
    var source := b.pin.value.turnId;
    var payload := db.contents[db.turns[source].configId].payload;
    var db2 := AddTurn(AddContent(db, draws(1), b.convId, payload), draws(2),
                       Turn(b.convId, id, draws(4), 1, draws(3), draws(1)));
    CopyFrame(db2, b.convId, source, draws(2), OwnedSeqs(db, source), draws, 5);
    CopyItemsTurns(db2, b.convId, source, draws(2), OwnedSeqs(db, source), draws, 5);
  }

  lemma NothingTwice(a: Db, b: Db, c: Db, convId: Text)
    requires NothingAdded(a, b, convId) && NothingAdded(b, c, convId) && Evolves(a, b) && Evolves(b, c)
    ensures NothingAdded(a, c, convId)
  {
    forall x | x in c.branches && c.branches[x].convId == convId ensures x in a.branches {
      assert x in b.branches && c.branches[x] == b.branches[x];
    }
    forall t | t in c.turns && c.turns[t].convId == convId ensures t in a.turns {
      assert t in b.turns && c.turns[t].(currentId := b.turns[t].currentId) == b.turns[t];
    }
  }

  /** Once a root has left the addressable states, no branch and no turn is ever added under it, in any
      interleaving of creates, patches, forks, sends, worker and deletion steps. */
  lemma {:induction false} NothingUnderDeletedRoot(env: Env, db: Db, run: seq<Step>, convId: Text)
    requires Inv(env, db) && AllAdmissible(run) && Fenced(db, convId)
    ensures Fenced(Run(env, db, run), convId) && NothingAdded(db, Run(env, db, run), convId)
    decreases |run|
  {
    if |run| == 0 {
      RunNothing(env, db, convId);
      assert run == [];
    } else {
      hide *;
      RunLast(env, db, run);
      var prefix := run[..|run| - 1];
      NothingUnderDeletedRoot(env, db, prefix, convId);
      FencedStep(env, Run(env, db, prefix), run[|run| - 1], convId);
      NothingTwice(db, Run(env, db, prefix), Run(env, db, run), convId);
    }
  }

  lemma RunNothing(env: Env, db: Db, convId: Text)
    requires Inv(env, db) && Fenced(db, convId)
    ensures Fenced(Run(env, db, []), convId) && NothingAdded(db, Run(env, db, []), convId)
  {
    hide Inv;
  }
}
