/** The conversation service as it runs: transactions that work on the database statement by statement
    and roll back to their snapshot when they throw, and the second transaction that answers a lost
    reservation after other sessions may have committed. */
module ConversationStore {
  import opened Wrappers
  import opened Utf16
  import opened AuditChain
  import opened Intents
  import opened Conversations
  import opened ConversationSteps
  import opened ConversationLaws

  datatype Candidate = CandidateOk(view: ForkView) | CandidateLost(hash: Bytes) | CandidateThrew(error: ForkError)

  datatype Reservation = Reserved(turnId: Text) | ReservationLost | ReservationThrew(error: SendError)

  class Service {
    const env: Env
    var db: Db

    constructor (e: Env)
      ensures env == e && db == EMPTY && Inv(env, db)
    {
      env := e;
      db := EMPTY;
      new;
      EmptyInv(env);
    }

    /** Other sessions may commit any steps here; callers rely on the contract alone. */
    method Others()
      requires Inv(env, db)
      modifies this
      ensures Inv(env, db) && Evolves(old(db), db)
    {
      EvolvesReflexive(db);
    }

    method CreateConversation(scope: Scope, q: CreateRequest, draws: Draws, now: Text) returns (ok: bool)
      requires Inv(env, db)
      modifies this
      ensures Inv(env, db) && Evolves(old(db), db)
      ensures ok == Create(old(db), scope, q, draws, now).Some?
      ensures db == if ok then Create(old(db), scope, q, draws, now).value else old(db)
    {
      EvolvesReflexive(db);
      if !IsAdmissibleNewIdentity(q.provider, q.surface) { return false; }
      if draws(0) in db.convs { return false; }
      ghost var before := db;
      var snapshot := db;
      db := db.(convs := db.convs[draws(0) := Conv(scope, q.mode, q.provider, q.surface, q.model, Active, None)]);
      if draws(1) in db.branches {
        db := snapshot;
        return false;
      }
      db := db.(branches := db.branches[draws(1) := Branch(draws(0), q.provider, q.surface, q.model, None, now)]);
      CreateKeeps(env, before, scope, q, draws, now);
      return true;
    }

    method PatchConversation(scope: Scope, convId: Text, title: Option<Text>, archived: Option<bool>) returns (ok: bool)
      requires Inv(env, db)
      modifies this
      ensures Inv(env, db) && Evolves(old(db), db)
      ensures ok == Patch(old(db), scope, convId, title, archived).Some?
      ensures db == if ok then Patch(old(db), scope, convId, title, archived).value else old(db)
    {
      EvolvesReflexive(db);
      PatchKeeps(env, db, scope, convId, title, archived);
      var locked := Root(db, scope, convId);
      if locked.None? || !IsAddressable(locked.value.status) { return false; }
      var row := locked.value;
      if title.Some? { row := row.(title := title); }
      if archived.Some? { row := row.(status := if archived.value then Archived else Active); }
      db := db.(convs := db.convs[Lower(convId) := row]);
      return true;
    }

    // -------------------------------------------------------------------------------------
    // Send
    // -------------------------------------------------------------------------------------

    /** `MAX(turn_seq) + 1` over the rows of a branch. */
    method NextTurnSeq(branchId: Text) returns (n: nat)
      ensures n == NextSeq(db, branchId)
    {
      var most: nat := 0;
      var rest := db.turns.Keys;
      while rest != {}
        invariant rest <= db.turns.Keys
        invariant forall t | t in db.turns.Keys - rest && db.turns[t].branchId == branchId ::
                    db.turns[t].turnSeq <= most
        invariant most == 0 || most in SeqsOf(db, branchId)
        decreases |rest|
      {
        var t :| t in rest;
        rest := rest - {t};
        if db.turns[t].branchId == branchId && db.turns[t].turnSeq > most {
          most := db.turns[t].turnSeq;
        }
      }
      MaxIs(SeqsOf(db, branchId), most);
      return most + 1;
    }

    /** `findTurnByClientTurnId`. */
    method FindTurnByClientTurnId(convId: Text, clientTurnId: Text) returns (t: Option<Text>)
      ensures t.Some? ==> HasClientTurn(db, convId, clientTurnId, t.value)
      ensures t.None? ==> forall u :: !HasClientTurn(db, convId, clientTurnId, u)
    {
      if u :| u in db.turns.Keys && db.turns[u].convId == convId && db.turns[u].clientTurnId == clientTurnId {
        return Some(u);
      }
      return None;
    }

    /** The reservation transaction. */
    method ReserveTurn(scope: Scope, convId: Text, q: SendRequest, draws: Draws) returns (r: Reservation)
      modifies this
      ensures match SendTx(env, old(db), scope, convId, q, draws)
              case SendCommitted(d, t) => db == d && r == Reserved(t)
              case SendLost => db == old(db) && r == ReservationLost
              case SendRefused(e) => db == old(db) && r == ReservationThrew(e)
    {
      hide NextSeq, Dispatchable;
      if env.size(q.native) > NATIVE_REQUEST_MAX_BYTES { return ReservationThrew(TooLarge); }
      var snapshot := db;
      var root := Root(db, scope, convId);
      if root.None? || !IsAddressable(root.value.status) { return ReservationThrew(SendNotFound); }
      if !IsExecutionEligible(root.value.status) { return ReservationThrew(SendNotFound); }
      var branch := BranchIn(db, convId, q.branchId);
      if branch.None? { return ReservationThrew(BranchNotFound); }
      if !Dispatchable(branch.value.provider, branch.value.surface) { return ReservationThrew(SurfaceUnsupported); }
      var conv, branchId := Lower(convId), Lower(q.branchId);
      var n := NextTurnSeq(branchId);
      if draws(0) in db.contents { return ReservationThrew(SendCollision); }
      db := AddContent(db, draws(0), conv, Document(q.native));
      var existing := FindTurnByClientTurnId(conv, Lower(q.clientTurnId));
      SameClientTurns(snapshot, db, conv, Lower(q.clientTurnId));
      if existing.Some? {
        db := snapshot;
        return ReservationLost;
      }
      if draws(1) in db.turns || draws(2) in db.attempts {
        db := snapshot;
        return ReservationThrew(SendCollision);
      }
      db := AddTurn(db, draws(1), Turn(conv, branchId, Lower(q.clientTurnId), n, draws(2), draws(0)));
      db := AddItem(db, ItemKey(draws(1), None, INPUT_ITEM_SEQ), Item(InputItemType(), draws(0)));
      return Reserved(draws(1));
    }

    /** `resolveCommittedSend`. */
    method ResolveCommittedSend(convId: Text, q: SendRequest, readable: bool) returns (r: SendReply)
      requires ClientTurnsUnique(db)
      ensures r == ResolveSend(env, db, convId, q, readable)
    {
      hide SendIntentHash;
      var found := FindTurnByClientTurnId(Lower(convId), Lower(q.clientTurnId));
      if found.None? { return SendTransient; }
      var turn := db.turns[found.value];
      if turn.configId !in db.contents || db.contents[turn.configId].convId != Lower(convId) { return SendConflict; }
      var stored := db.contents[turn.configId];
      if !readable || !stored.active { return SendConflict; }
      match stored.payload {
        case Opaque(_) => return SendConflict;
        case Document(json) =>
          var committed := SendIntentHash(env.crypto, BuildSendIntent(convId, turn.branchId, json));
          var incoming := SendIntentHash(env.crypto, BuildSendIntent(convId, q.branchId, q.native));
          if committed != incoming { return SendConflict; }
          return SendReplay(found.value);
      }
    }

    /** `sendTurn`: reserve, and answer a lost reservation from the committed turn. */
    method SendTurn(scope: Scope, convId: Text, q: SendRequest, draws: Draws, readable: bool) returns (r: SendReply)
      requires Inv(env, db) && PayloadOk(Document(q.native))
      modifies this
      ensures Inv(env, db) && Evolves(old(db), db)
      ensures match SendTx(env, old(db), scope, convId, q, draws)
              case SendCommitted(d, t) => db == d && r == SendNew(t)
              case SendRefused(e) => db == old(db) && r == SendError(e)
              case SendLost => r == ResolveSend(env, db, convId, q, readable) && r != SendTransient
    {
      hide Inv, Evolves, SendTx, ResolveSend, HasClientTurn, PayloadOk;
      ghost var before := db;
      EvolvesReflexive(db);
      if SendTx(env, db, scope, convId, q, draws).SendCommitted? { SendStepKeeps(env, db, scope, convId, q, draws); }
      var reserved := ReserveTurn(scope, convId, q, draws);
      match reserved {
        case Reserved(turnId) => return SendNew(turnId);
        case ReservationThrew(error) => return SendError(error);
        case ReservationLost =>
          Others();
          ShapeOf(env, db);
          LostSendFindsTheTurn(env, before, scope, convId, q, draws, db, readable);
          r := ResolveCommittedSend(convId, q, readable);
      }
    }

    // -------------------------------------------------------------------------------------
    // Fork
    // -------------------------------------------------------------------------------------

    /** `listTurnOwnedItems`, in the order of their numbers. */
    method ListTurnOwnedItems(turnId: Text) returns (seqs: seq<nat>)
      ensures seqs == OwnedSeqs(db, turnId)
    {
      var all := set k | k in db.items.Keys && k.turnId == turnId && k.attemptId.None? :: k.itemSeq;
      OwnedSet(db, turnId);
      seqs := InOrder(all);
    }

    /** `mintRegenerationChild`, inside the fork's transaction; the caller rolls back when it throws. */
    method MintRegenerationChild(childBranchId: Text, b: Branch, draws: Draws) returns (error: Option<ForkError>)
      requires b.pin.Some?
      modifies this
      ensures match MintChild(old(db), childBranchId, b, draws)
              case Minted(d) => error.None? && db == d
              case MintFailed(e) => error == Some(e)
    {
      hide OwnedSeqs;
      ghost var before := db;
      var source := b.pin.value.turnId;
      if source !in db.turns || db.turns[source].convId != b.convId
         || db.turns[source].branchId != b.pin.value.parentId {
        return Some(ForkSourceNotFound);
      }
      var configId := db.turns[source].configId;
      if !Copyable(db, b.convId, configId) { return Some(NotCopyable); }
      var clash := FindTurnByClientTurnId(b.convId, draws(4));
      if draws(1) in db.contents || draws(2) in db.turns || draws(3) in db.attempts || clash.Some? {
        return Some(ForkCollision);
      }
      var seqs := ListTurnOwnedItems(source);
      db := AddContent(db, draws(1), b.convId, db.contents[configId].payload);
      db := AddTurn(db, draws(2), Turn(b.convId, childBranchId, draws(4), 1, draws(3), draws(1)));
      ghost var start := db;
      var k: nat := 5;
      for i := 0 to |seqs|
        invariant CopyItems(start, b.convId, source, draws(2), seqs, draws, 5)
               == CopyItems(db, b.convId, source, draws(2), seqs[i..], draws, k)
      {
        var key := ItemKey(source, None, seqs[i]);
        assert seqs[i..][1..] == seqs[i + 1..];
        if key in db.items {
          var item := db.items[key];
          if !Copyable(db, b.convId, item.contentId) { return Some(NotCopyable); }
          if draws(k) in db.contents { return Some(ForkCollision); }
          db := AddContent(db, draws(k), b.convId, db.contents[item.contentId].payload);
          db := AddItem(db, ItemKey(draws(2), None, seqs[i]), Item(item.itemType, draws(k)));
          k := k + 1;
        }
      }
      return None;
    }

    /** The candidate transaction: everything it wrote is rolled back when it loses or throws. */
    method ForkCandidate(scope: Scope, convId: Text, q: ForkRequest, draws: Draws, now: Text) returns (r: Candidate)
      modifies this
      ensures match ForkTx(env, old(db), scope, convId, q, draws, now)
              case ForkCommitted(d, v) => db == d && r == CandidateOk(v)
              case ForkLost(h) => db == old(db) && r == CandidateLost(h)
              case ForkRefused(e) => db == old(db) && r == CandidateThrew(e)
    {
      hide BranchHash, MintChild, PlanFork, IsAdmissibleNewIdentity;
      var snapshot := db;
      var plan := PlanFork(db, scope, convId, q, now);
      if plan.PlanRefused? { return CandidateThrew(plan.error); }
      PlanPins(db, scope, convId, q, now);
      var b := plan.branch;
      var hash := BranchHash(env, b);
      var key := BindingKey(Lower(convId), Lower(q.clientForkId));
      var committed := key in db.bindings;
      if !committed && !IsAdmissibleNewIdentity(b.provider, b.surface) { return CandidateThrew(IdentityNotAdmissible); }
      if draws(0) in db.branches { return CandidateThrew(ForkCollision); }
      db := db.(branches := db.branches[draws(0) := b]);
      if key in db.bindings {
        db := snapshot;
        return CandidateLost(hash);
      }
      db := db.(bindings := db.bindings[key := Binding(hash, draws(0))]);
      assert db == AddFork(snapshot, draws(0), b, key, hash);
      var child: Option<(Text, Text)> := None;
      if q.mode.BeforeAttemptOutput? {
        var error := MintRegenerationChild(draws(0), b, draws);
        if error.Some? {
          db := snapshot;
          return CandidateThrew(error.value);
        }
        child := Some((draws(2), draws(3)));
      }
      return CandidateOk(ForkView(draws(0), b, child));
    }

    /** `getForkMintedChildTurn`. */
    method GetForkMintedChildTurn(branchId: Text) returns (child: Option<(Text, Text)>)
      requires TurnsDense(db) && AttemptsUnique(db)
      ensures child == ChildOf(db, branchId)
    {
      if t, a :| t in db.turns.Keys && a in db.attempts.Keys && ChildRows(db, branchId, t, a) {
        ChildUnique(db, branchId, t, a);
        return Some((t, a));
      }
      return None;
    }

    /** `resolveCommittedFork`. */
    method ResolveCommittedFork(convId: Text, clientForkId: Text, hash: Bytes) returns (r: ForkReply)
      requires TurnsDense(db) && AttemptsUnique(db)
      ensures r == ResolveFork(db, convId, clientForkId, hash)
    {
      hide ChildOf;
      var key := BindingKey(Lower(convId), Lower(clientForkId));
      if key !in db.bindings { return InvariantBreak; }
      var binding := db.bindings[key];
      if binding.hash != hash { return ForkConflict; }
      if binding.branchId !in db.branches { return InvariantBreak; }
      var b := db.branches[binding.branchId];
      if b.convId != key.convId || b.pin.None? { return InvariantBreak; }
      if b.pin.value.mode.AfterAttempt? { return ForkReplay(ForkView(binding.branchId, b, None)); }
      var child := GetForkMintedChildTurn(binding.branchId);
      if child.None? { return InvariantBreak; }
      return ForkReplay(ForkView(binding.branchId, b, child));
    }

    /** `createFork`: the candidate transaction, and the answer to a lost reservation in a second one.
        The invariant breaks it guards against are never met. */
    method CreateFork(scope: Scope, convId: Text, q: ForkRequest, draws: Draws, now: Text) returns (r: ForkReply)
      requires Inv(env, db) && CollisionFree(env.crypto)
      modifies this
      ensures Inv(env, db) && Evolves(old(db), db)
      ensures r != InvariantBreak
      ensures match ForkTx(env, old(db), scope, convId, q, draws, now)
              case ForkCommitted(d, v) => db == d && r == ForkNew(v)
              case ForkRefused(e) => db == old(db) && r == ForkFailed(e)
              case ForkLost(h) => r == ResolveFork(db, convId, q.clientForkId, h)
    {
      hide Inv, Evolves, ForkTx, ResolveFork, CollisionFree, PlanFork, IntentOf, ChildOf;
      ghost var before := db;
      EvolvesReflexive(db);
      if ForkTx(env, db, scope, convId, q, draws, now).ForkCommitted? {
        ForkKeeps(env, db, scope, convId, q, draws, now);
      }
      var candidate := ForkCandidate(scope, convId, q, draws, now);
      match candidate {
        case CandidateOk(view) => return ForkNew(view);
        case CandidateThrew(error) => return ForkFailed(error);
        case CandidateLost(hash) =>
          Others();
          ShapeOf(env, db);
          LostForkIsAnswered(env, before, scope, convId, q, draws, now, db);
          r := ResolveCommittedFork(convId, q.clientForkId, hash);
      }
    }
  }

  lemma SameClientTurns(a: Db, b: Db, conv: Text, clientTurnId: Text)
    requires a.turns == b.turns
    ensures forall t :: HasClientTurn(a, conv, clientTurnId, t) <==> HasClientTurn(b, conv, clientTurnId, t)
  {
  }

  lemma MaxIs(s: set<nat>, m: nat)
    requires forall k | k in s :: k <= m
    requires m == 0 || m in s
    ensures MaxOf(s) == m
  {
  }

  lemma OwnedSet(db: Db, turnId: Text)
    ensures OwnedSeqs(db, turnId)
            == Ascending(set k | k in db.items.Keys && k.turnId == turnId && k.attemptId.None? :: k.itemSeq)
  {
    assert (set k | k in db.items.Keys && k.turnId == turnId && k.attemptId.None? :: k.itemSeq)
        == (set k | k in db.items && k.turnId == turnId && k.attemptId.None? :: k.itemSeq);
  }

  predicate ChildRows(db: Db, branchId: Text, t: Text, a: Text)
    requires t in db.turns && a in db.attempts
    ensures ChildRows(db, branchId, t, a) == IsChild(db, branchId, t, a)
  {
    && db.turns[t].branchId == branchId && db.turns[t].turnSeq == 1
    && db.attempts[a].turnId == t && db.attempts[a].attemptSeq == 1
  }

  predicate IsMin(s: set<nat>, m: nat)
  {
    m in s && forall k | k in s :: m <= k
  }

  lemma AscendingUnfold(s: set<nat>, m: nat)
    requires IsMin(s, m)
    ensures Ascending(s) == [m] + Ascending(s - {m})
  {
    assert m == MinOf(s) by { hide Ascending; }
    hide MinOf;
  }

  lemma HasMin(s: set<nat>)
    requires s != {}
    ensures exists m: nat :: m in s && IsMin(s, m)
  {
    assert IsMin(s, MinOf(s));
  }

  /** `ORDER BY item_seq ASC`. */
  method InOrder(s: set<nat>) returns (r: seq<nat>)
    ensures r == Ascending(s)
  {
    hide Ascending, IsMin;
    r := [];
    var rest := s;
    while rest != {}
      invariant r + Ascending(rest) == Ascending(s)
      decreases |rest|
    {
      HasMin(rest);
      var m: nat :| m in rest && IsMin(rest, m);
      AscendingUnfold(rest, m);
      assert r + Ascending(rest) == (r + [m]) + Ascending(rest - {m});
      r := r + [m];
      rest := rest - {m};
    }
    NothingAscends();
  }

  lemma NothingAscends()
    ensures Ascending({}) == []
  {
  }
}
