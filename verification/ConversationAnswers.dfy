/** What each request of the conversation store is answered and what it writes, condition by condition,
    and that a caller who does not own a conversation neither gets an answer from it nor changes it. */
module ConversationAnswers {
  import opened Wrappers
  import opened Utf16
  import opened CanonicalJson
  import opened AuditChain
  import opened Intents
  import opened Conversations
  import opened ConversationSteps
  import opened ConversationLaws
  import Locks

  /** The caller's own conversation, in a state in which it takes requests. */
  predicate Addresses(db: Db, scope: Scope, convId: Text)
  {
    && convId in db.convs
    && db.convs[convId].scope.orgId == scope.orgId && db.convs[convId].scope.userId == scope.userId
    && (db.convs[convId].status == Active || db.convs[convId].status == Archived)
  }

  predicate HasBranch(db: Db, convId: Text, branchId: Text)
  {
    branchId in db.branches && db.branches[branchId].convId == convId
  }

  // ---------------------------------------------------------------------------------------
  // Create and patch
  // ---------------------------------------------------------------------------------------

  /** An executable surface of a coding agent has one spelling; any other provider takes any surface. */
  predicate NamesSurface(p: Provider, surface: Text)
  {
    && (p == Codex ==> surface == Key("codex"))
    && (p == ClaudeCode ==> surface == Key("claude_code"))
  }

  /** A conversation is created for its caller, active and untitled, with a root branch of its identity. */
  lemma CreateWrites(db: Db, scope: Scope, q: CreateRequest, draws: Draws, now: Text)
    ensures var r := Create(db, scope, q, draws, now);
            && (r.Some? <==> NamesSurface(q.provider, q.surface) && draws(0) !in db.convs && draws(1) !in db.branches)
            && (r.Some? ==>
                  && r.value == db.(convs := r.value.convs, branches := r.value.branches)
                  && r.value.convs == db.convs[draws(0) := r.value.convs[draws(0)]]
                  && r.value.branches == db.branches[draws(1) := r.value.branches[draws(1)]]
                  && var c := r.value.convs[draws(0)];
                  var b := r.value.branches[draws(1)];
                  && c.scope == scope && c.status == Active && c.title == None && c.mode == q.mode
                  && b.convId == draws(0) && b.pin == None && b.createdAt == now
                  && c.provider == b.provider == q.provider && c.surface == b.surface == q.surface
                  && c.model == b.model == q.model)
  {
    hide Key;
  }

  /** A patch reaches the caller's conversation alone, and changes its title and its archive state as
      asked and nothing else. */
  lemma PatchWrites(db: Db, scope: Scope, convId: Text, title: Option<Text>, archived: Option<bool>)
    ensures var r := Patch(db, scope, convId, title, archived);
            var c := Lower(convId);
            && (r.Some? <==> Addresses(db, scope, c))
            && (r.Some? ==>
                  && r.value == db.(convs := db.convs[c := r.value.convs[c]])
                  && r.value.convs[c].(status := db.convs[c].status, title := db.convs[c].title) == db.convs[c]
                  && (r.value.convs[c].status == Archived <==>
                        archived == Some(true) || (archived == None && db.convs[c].status == Archived))
                  && (r.value.convs[c].status == Active <==>
                        archived == Some(false) || (archived == None && db.convs[c].status == Active))
                  && (title != None ==> r.value.convs[c].title == title)
                  && (title == None ==> r.value.convs[c].title == db.convs[c].title))
  {
  }

  // ---------------------------------------------------------------------------------------
  // Send
  // ---------------------------------------------------------------------------------------

  predicate Executes(b: Branch)
  {
    || (b.provider == Anthropic && b.surface == Key("anthropic_messages"))
    || (b.provider == OpenAi && b.surface == Key("openai_responses"))
  }

  /** Every refusal of a send, in the order of the checks; a send that passes them all is committed unless
      its client turn id is taken, which it loses to. */
  lemma SendAnswers(env: Env, db: Db, scope: Scope, convId: Text, q: SendRequest, draws: Draws)
    ensures var r := SendTx(env, db, scope, convId, q, draws);
            var c, b := Lower(convId), Lower(q.branchId);
            var fits := env.size(q.native) <= 524288;
            var owned := fits && Addresses(db, scope, c);
            var placed := owned && HasBranch(db, c, b);
            var open := placed && Executes(db.branches[b]) && draws(0) !in db.contents;
            var taken := exists t ::
              t in db.turns && db.turns[t].convId == c && db.turns[t].clientTurnId == Lower(q.clientTurnId);
            && (r == SendRefused(TooLarge) <==> !fits)
            && (r == SendRefused(SendNotFound) <==> fits && !owned)
            && (r == SendRefused(BranchNotFound) <==> owned && !placed)
            && (r == SendRefused(SurfaceUnsupported) <==> placed && !Executes(db.branches[b]))
            && (r == SendLost <==> open && taken)
            && (r.SendCommitted? <==> open && !taken && draws(1) !in db.turns && draws(2) !in db.attempts)
  {
    hide NextSeq, Key;
    assert (exists t :: t in db.turns && db.turns[t].convId == Lower(convId)
              && db.turns[t].clientTurnId == Lower(q.clientTurnId))
        <==> (exists t :: HasClientTurn(db, Lower(convId), Lower(q.clientTurnId), t)) by {
      forall t ensures HasClientTurn(db, Lower(convId), Lower(q.clientTurnId), t) <==>
          (t in db.turns && db.turns[t].convId == Lower(convId) && db.turns[t].clientTurnId == Lower(q.clientTurnId))
      {
      }
    }
  }

  /** A committed send adds one turn, its accepted first attempt, one content row with the request, and the
      turn-owned input item that shares it; nothing else changes. */
  lemma SendWrites(env: Env, db: Db, scope: Scope, convId: Text, q: SendRequest, draws: Draws)
    requires SendTx(env, db, scope, convId, q, draws).SendCommitted?
    ensures var r := SendTx(env, db, scope, convId, q, draws);
            && r.turnId !in db.turns && r.turnId in r.db.turns
            && var t := r.db.turns[r.turnId];
            && t.convId == Lower(convId) && t.branchId == Lower(q.branchId) && t.clientTurnId == Lower(q.clientTurnId)
            && (forall u | u in db.turns && db.turns[u].branchId == t.branchId :: db.turns[u].turnSeq < t.turnSeq)
            && t.currentId !in db.attempts && t.configId !in db.contents
            && r.db == db.(
                 turns := db.turns[r.turnId := t],
                 attempts := db.attempts[t.currentId := Attempt(t.convId, t.branchId, r.turnId, 1, Accepted)],
                 contents := db.contents[t.configId := Content(t.convId, Document(q.native), true)],
                 items := db.items[ItemKey(r.turnId, None, 1) := Item(Key("native_request"), t.configId)])
  {
    hide Key, Root, BranchIn, Dispatchable;
    forall u | u in db.turns && db.turns[u].branchId == Lower(q.branchId)
      ensures db.turns[u].turnSeq < NextSeq(db, Lower(q.branchId))
    {
      assert db.turns[u].turnSeq in SeqsOf(db, Lower(q.branchId));
    }
  }

  // ---------------------------------------------------------------------------------------
  // Fork
  // ---------------------------------------------------------------------------------------

  /** The attempt named is one of the turn and branch named. */
  predicate IsSource(db: Db, convId: Text, q: ForkRequest)
  {
    && HasBranch(db, convId, Lower(q.parentId)) && Lower(q.attemptId) in db.attempts
    && var a := db.attempts[Lower(q.attemptId)];
    a.convId == convId && a.branchId == Lower(q.parentId) && a.turnId == Lower(q.turnId)
  }

  /** `FORK_PIN_VALID_STATES`: a fork after an attempt needs it completed; a fork before its output needs
      it ended. */
  predicate Pinnable(mode: BoundaryMode, s: AttemptState)
  {
    s == Completed || (mode == BeforeAttemptOutput && s in {Stopped, Failed, Rejected})
  }

  /** The request names a provider, surface or model other than the parent's. */
  predicate Switches(q: ForkRequest, p: Branch)
  {
    || (q.provider != None && q.provider != Some(p.provider))
    || (q.surface != None && q.surface != Some(p.surface))
    || (q.model != None && q.model != Some(p.model))
  }

  /** The value a fork runs under: what it asks for, and else its parent's. */
  predicate Resolves<T(==)>(asked: Option<T>, parent: T, got: T)
  {
    if asked == None then got == parent else asked == Some(got)
  }

  predicate ResolvesTriple(q: ForkRequest, p: Branch, b: Branch)
  {
    && Resolves(q.provider, p.provider, b.provider) && Resolves(q.surface, p.surface, b.surface)
    && Resolves(q.model, p.model, b.model)
  }

  /** What a fork plans: the refusals before the binding is looked at, and the branch it would insert, which
      runs under what the request asks for and else what the parent has. Only a fork before an attempt's
      output is refused for a switch. */
  lemma PlanAnswers(db: Db, scope: Scope, convId: Text, q: ForkRequest, now: Text)
    ensures var plan := PlanFork(db, scope, convId, q, now);
            var c := Lower(convId);
            var owned := Addresses(db, scope, c);
            var placed := owned && IsSource(db, c, q);
            var pinned := placed && Pinnable(q.mode, db.attempts[Lower(q.attemptId)].state);
            var copies := pinned && q.mode == BeforeAttemptOutput && Switches(q, db.branches[Lower(q.parentId)]);
            && (plan == PlanRefused(ForkNotFound) <==> !owned)
            && (plan == PlanRefused(ForkSourceNotFound) <==> owned && !placed)
            && (placed && !pinned <==>
                  placed && plan == PlanRefused(PinState(q.mode, db.attempts[Lower(q.attemptId)].state)))
            && (plan == PlanRefused(ReplacementConfigRequired) <==> copies)
            && (plan.Plan? <==> pinned && !copies)
            && (plan.Plan? ==>
                  && ResolvesTriple(q, db.branches[Lower(q.parentId)], plan.branch)
                  && plan.branch.convId == c && plan.branch.createdAt == now
                  && plan.branch.pin == Some(Pin(Lower(q.parentId), Lower(q.turnId), Lower(q.attemptId), q.mode)))
  {
    hide Lower;
  }

  /** A committed fork: a fresh branch under the resolved identity, pinned to the requested attempt, bound
      to its key; a child exactly for a fork before an attempt's output. Other branches and bindings stay. */
  lemma ForkWrites(env: Env, db: Db, scope: Scope, convId: Text, q: ForkRequest, draws: Draws, now: Text)
    requires ForkTx(env, db, scope, convId, q, draws, now).ForkCommitted?
    ensures var r := ForkTx(env, db, scope, convId, q, draws, now);
            var key := BindingKey(Lower(convId), Lower(q.clientForkId));
            && Lower(q.parentId) in db.branches
            && r.view.branchId !in db.branches && key !in db.bindings
            && r.db.branches == db.branches[r.view.branchId := r.view.branch]
            && ResolvesTriple(q, db.branches[Lower(q.parentId)], r.view.branch)
            && NamesSurface(r.view.branch.provider, r.view.branch.surface)
            && r.view.branch.convId == Lower(convId) && r.view.branch.createdAt == now
            && r.view.branch.pin == Some(Pin(Lower(q.parentId), Lower(q.turnId), Lower(q.attemptId), q.mode))
            && r.db.bindings.Keys == db.bindings.Keys + {key} && r.db.bindings[key].branchId == r.view.branchId
            && (forall k | k in db.bindings :: r.db.bindings[k] == db.bindings[k])
            && (r.view.child != None <==> q.mode == BeforeAttemptOutput)
            && (q.mode == AfterAttempt ==>
                  r.db == db.(branches := r.db.branches, bindings := r.db.bindings))
  {
    hide PlanFork, BranchHash, MintChild, IsAdmissibleNewIdentity;
    PlanAnswers(db, scope, convId, q, now);
    var b := PlanFork(db, scope, convId, q, now).branch;
    AdmitsNamed(b);
    var db1 := AddFork(db, draws(0), b, BindingKey(Lower(convId), Lower(q.clientForkId)), BranchHash(env, b));
    if q.mode.BeforeAttemptOutput? { MintTouches(db1, draws(0), b, draws); }
  }

  lemma AdmitsNamed(b: Branch)
    ensures IsAdmissibleNewIdentity(b.provider, b.surface) <==> NamesSurface(b.provider, b.surface)
  {
    hide Key;
  }

  /** After the plan: an identity no new branch may have is refused unless the key is already bound, and a
      bound key is lost to. */
  lemma ForkAnswers(env: Env, db: Db, scope: Scope, convId: Text, q: ForkRequest, draws: Draws, now: Text)
    ensures var r := ForkTx(env, db, scope, convId, q, draws, now);
            var plan := PlanFork(db, scope, convId, q, now);
            var bound := BindingKey(Lower(convId), Lower(q.clientForkId)) in db.bindings;
            && (plan.PlanRefused? ==> r == ForkRefused(plan.error))
            && (r == ForkRefused(IdentityNotAdmissible) <==>
                  plan.Plan? && !bound && !NamesSurface(plan.branch.provider, plan.branch.surface))
            && (r.ForkLost? <==> plan.Plan? && bound && draws(0) !in db.branches)
            && (r.ForkCommitted? && q.mode == AfterAttempt <==>
                  && plan.Plan? && q.mode == AfterAttempt && !bound && draws(0) !in db.branches
                  && NamesSurface(plan.branch.provider, plan.branch.surface))
  {
    hide BranchHash, IsAdmissibleNewIdentity, NamesSurface, MintChild;
    PlanErrors(db, scope, convId, q, now);
    var plan := PlanFork(db, scope, convId, q, now);
    if plan.Plan? {
      hide PlanFork;
      AdmitsNamed(plan.branch);
      var db1 := AddFork(db, draws(0), plan.branch, BindingKey(Lower(convId), Lower(q.clientForkId)),
                         BranchHash(env, plan.branch));
      MintErrors(db1, draws(0), plan.branch, draws);
    }
  }

  lemma PlanErrors(db: Db, scope: Scope, convId: Text, q: ForkRequest, now: Text)
    ensures var plan := PlanFork(db, scope, convId, q, now);
            && (plan.PlanRefused? ==> plan.error != IdentityNotAdmissible)
            && (plan.Plan? ==> plan.branch.pin.Some? && plan.branch.pin.value.mode == q.mode)
  {
  }

  lemma MintErrors(db: Db, id: Text, b: Branch, draws: Draws)
    requires b.pin.Some?
    ensures MintChild(db, id, b, draws).MintFailed? ==> MintChild(db, id, b, draws).error != IdentityNotAdmissible
  {
    hide CopyItems, OwnedSeqs;
    var source := b.pin.value.turnId;
    if source in db.turns && db.turns[source].configId in db.contents {
      var payload := db.contents[db.turns[source].configId].payload;
      var db2 := AddTurn(AddContent(db, draws(1), b.convId, payload), draws(2),
                         Turn(b.convId, id, draws(4), 1, draws(3), draws(1)));
      CopyErrors(db2, b.convId, source, draws(2), OwnedSeqs(db, source), draws, 5);
    }
  }

  lemma {:induction false} CopyErrors(db: Db, convId: Text, source: Text, child: Text, seqs: seq<nat>, draws: Draws,
                                      k: nat)
    ensures var r := CopyItems(db, convId, source, child, seqs, draws, k);
            r.MintFailed? ==> r.error == NotCopyable || r.error == ForkCollision
    decreases |seqs|
  {
    if |seqs| > 0 {
      var key := ItemKey(source, None, seqs[0]);
      if key !in db.items {
        CopyErrors(db, convId, source, child, seqs[1..], draws, k);
      } else if Copyable(db, convId, db.items[key].contentId) {
        var db1 := AddContent(db, draws(k), convId, db.contents[db.items[key].contentId].payload);
        var db2 := AddItem(db1, ItemKey(child, None, seqs[0]), Item(db.items[key].itemType, draws(k)));
        CopyErrors(db2, convId, source, child, seqs[1..], draws, k + 1);
      }
    }
  }

  /** The turn's request and all of its turn-owned items are still readable content of the conversation. */
  ghost predicate Intact(db: Db, convId: Text, turnId: Text)
  {
    && turnId in db.turns && IsActive(db, convId, db.turns[turnId].configId)
    && forall n: nat | ItemKey(turnId, None, n) in db.items ::
         IsActive(db, convId, db.items[ItemKey(turnId, None, n)].contentId)
  }

  predicate IsActive(db: Db, convId: Text, contentId: Text)
  {
    contentId in db.contents && db.contents[contentId].convId == convId && db.contents[contentId].active == true
  }

  /** A regeneration copies a turn only while nothing of it was shredded, and is refused as not copyable only
      when something was. */
  lemma RegenerationNeedsIntact(env: Env, db: Db, scope: Scope, convId: Text, q: ForkRequest, draws: Draws, now: Text)
    requires Inv(env, db) && q.mode == BeforeAttemptOutput
    ensures var r := ForkTx(env, db, scope, convId, q, draws, now);
            && (r.ForkCommitted? ==> Intact(db, Lower(convId), Lower(q.turnId)))
            && (r == ForkRefused(NotCopyable) ==> !Intact(db, Lower(convId), Lower(q.turnId)))
  {
    hide PlanFork, BranchHash, MintChild, RowsInv, Lower, IsAdmissibleNewIdentity, Intact;
    PlanAnswers(db, scope, convId, q, now);
    var plan := PlanFork(db, scope, convId, q, now);
    if plan.Plan? {
      Stored(env, db);
      var b := plan.branch;
      var db1 := AddFork(db, draws(0), b, BindingKey(Lower(convId), Lower(q.clientForkId)), BranchHash(env, b));
      MintNeedsIntact(db1, draws(0), b, draws);
      SameIntact(db, db1, b.convId, b.pin.value.turnId);
    }
  }

  lemma SameIntact(db: Db, db1: Db, convId: Text, turnId: Text)
    requires db1.turns == db.turns && db1.items == db.items && db1.contents == db.contents
    ensures Intact(db1, convId, turnId) <==> Intact(db, convId, turnId)
  {
  }

  lemma MintNeedsIntact(db: Db, id: Text, b: Branch, draws: Draws)
    requires b.pin.Some? && ItemsStored(db)
    ensures var r := MintChild(db, id, b, draws);
            && (r.Minted? ==> Intact(db, b.convId, b.pin.value.turnId))
            && (r == MintFailed(NotCopyable) ==> !Intact(db, b.convId, b.pin.value.turnId))
  {
    hide CopyItems, OwnedSeqs;
    var source := b.pin.value.turnId;
    OwnedAre(db, source);
    if source in db.turns && db.turns[source].configId in db.contents {
      var payload := db.contents[db.turns[source].configId].payload;
      var db2 := AddTurn(AddContent(db, draws(1), b.convId, payload), draws(2),
                         Turn(b.convId, id, draws(4), 1, draws(3), draws(1)));
      if source != draws(2) && draws(1) !in db.contents {
        CopyNeedsActive(db2, b.convId, source, draws(2), OwnedSeqs(db, source), draws, 5);
        SeenBefore(db, db2, b.convId, draws(1));
      }
    }
  }

  lemma SeenBefore(db: Db, db2: Db, convId: Text, id: Text)
    requires ItemsStored(db) && id !in db.contents && db2.items == db.items
    requires id in db2.contents && db2.contents == db.contents[id := db2.contents[id]]
    ensures forall key | key in db.items ::
              IsActive(db2, convId, db.items[key].contentId) <==> IsActive(db, convId, db.items[key].contentId)
  {
  }

  lemma {:induction false} CopyNeedsActive(db: Db, convId: Text, source: Text, child: Text, seqs: seq<nat>,
                                           draws: Draws, k: nat)
    requires source != child && ItemsStored(db)
    ensures var r := CopyItems(db, convId, source, child, seqs, draws, k);
            && (r.Minted? ==> forall n | n in seqs && ItemKey(source, None, n) in db.items ::
                  IsActive(db, convId, db.items[ItemKey(source, None, n)].contentId))
            && (r == MintFailed(NotCopyable) ==> exists n ::
                  && n in seqs && ItemKey(source, None, n) in db.items
                  && !IsActive(db, convId, db.items[ItemKey(source, None, n)].contentId))
    decreases |seqs|
  {
    if |seqs| > 0 {
      var key := ItemKey(source, None, seqs[0]);
      assert forall n :: n in seqs <==> n == seqs[0] || n in seqs[1..];
      if key !in db.items {
        CopyNeedsActive(db, convId, source, child, seqs[1..], draws, k);
      } else if !IsActive(db, convId, db.items[key].contentId) {
        assert seqs[0] in seqs;
      } else if draws(k) !in db.contents {
        var db1 := AddContent(db, draws(k), convId, db.contents[db.items[key].contentId].payload);
        var db2 := AddItem(db1, ItemKey(child, None, seqs[0]), Item(db.items[key].itemType, draws(k)));
        CopyNeedsActive(db2, convId, source, child, seqs[1..], draws, k + 1);
        forall n | ItemKey(source, None, n) in db.items
          ensures ItemKey(source, None, n) in db2.items
          ensures db2.items[ItemKey(source, None, n)] == db.items[ItemKey(source, None, n)]
          ensures IsActive(db2, convId, db.items[ItemKey(source, None, n)].contentId)
              <==> IsActive(db, convId, db.items[ItemKey(source, None, n)].contentId)
        {
        }
      }
    }
  }

  // ---------------------------------------------------------------------------------------
  // Only the owner
  // ---------------------------------------------------------------------------------------

  /** A caller who does not own a conversation is told that there is none, whatever it asks. */
  lemma StrangerFindsNothing(env: Env, db: Db, scope: Scope, convId: Text, send: SendRequest, fork: ForkRequest,
                             draws: Draws, now: Text, title: Option<Text>, archived: Option<bool>)
    requires Lower(convId) in db.convs && db.convs[Lower(convId)].scope != scope
    ensures SendTx(env, db, scope, convId, send, draws) in {SendRefused(TooLarge), SendRefused(SendNotFound)}
    ensures ForkTx(env, db, scope, convId, fork, draws, now) == ForkRefused(ForkNotFound)
    ensures Patch(db, scope, convId, title, archived) == None
  {
    hide Lower;
    SendAnswers(env, db, scope, convId, send, draws);
    PlanAnswers(db, scope, convId, fork, now);
    PatchWrites(db, scope, convId, title, archived);
  }

  /** The rows of a table that are under a conversation. */
  function Under<K, V>(m: map<K, V>, owner: (K, V) -> Text, c: Text): map<K, V>
  {
    map x | x in m && owner(x, m[x]) == c :: m[x]
  }

  function OfConv(id: Text, row: Conv): Text { id }

  function OfBranch(id: Text, row: Branch): Text { row.convId }

  function OfTurn(id: Text, row: Turn): Text { row.convId }

  function OfAttempt(id: Text, row: Attempt): Text { row.convId }

  function OfContent(id: Text, row: Content): Text { row.convId }

  function OfBinding(key: BindingKey, row: Binding): Text { key.convId }

  function ItemsUnder(items: map<ItemKey, Item>, turns: map<Text, Turn>): map<ItemKey, Item>
  {
    map x | x in items && x.turnId in turns :: items[x]
  }

  /** All that is stored of a conversation. */
  function Tree(db: Db, c: Text): Db
  {
    var turns := Under(db.turns, OfTurn, c);
    Db(Under(db.convs, OfConv, c), Under(db.branches, OfBranch, c), turns, Under(db.attempts, OfAttempt, c),
       ItemsUnder(db.items, turns), Under(db.contents, OfContent, c), Under(db.bindings, OfBinding, c))
  }

  lemma SameUnder<K, V>(m: map<K, V>, n: map<K, V>, owner: (K, V) -> Text, c: Text)
    requires forall x | x in m :: x in n && (owner(x, m[x]) == c || owner(x, n[x]) == c ==> n[x] == m[x])
    requires forall x | x in n && x !in m :: owner(x, n[x]) != c
    ensures Under(n, owner, c) == Under(m, owner, c)
  {
  }

  lemma SameItems(items: map<ItemKey, Item>, more: map<ItemKey, Item>, turns: map<Text, Turn>)
    requires forall x | x in items :: x in more && more[x] == items[x]
    requires forall x | x in more && x !in items :: x.turnId !in turns
    ensures ItemsUnder(more, turns) == ItemsUnder(items, turns)
  {
  }

  /** From `db` to `later` rows were added, none of them under `c`, and no row changed but other
      conversations' own. */
  ghost predicate AddsElsewhere(db: Db, later: Db, c: Text)
  {
    && (forall x | x in db.convs :: x in later.convs && (x == c ==> later.convs[x] == db.convs[x]))
    && (c in later.convs ==> c in db.convs)
    && (forall x | x in db.branches :: x in later.branches && later.branches[x] == db.branches[x])
    && (forall x | x in later.branches && x !in db.branches :: later.branches[x].convId != c)
    && (forall x | x in db.turns :: x in later.turns && later.turns[x] == db.turns[x])
    && (forall x | x in later.turns && x !in db.turns :: later.turns[x].convId != c)
    && (forall x | x in db.attempts :: x in later.attempts && later.attempts[x] == db.attempts[x])
    && (forall x | x in later.attempts && x !in db.attempts :: later.attempts[x].convId != c)
    && (forall x | x in db.items :: x in later.items && later.items[x] == db.items[x])
    && (forall x | x in later.items && x !in db.items :: x.turnId !in db.turns)
    && (forall x | x in db.contents :: x in later.contents && later.contents[x] == db.contents[x])
    && (forall x | x in later.contents && x !in db.contents :: later.contents[x].convId != c)
    && (forall x | x in db.bindings :: x in later.bindings && later.bindings[x] == db.bindings[x])
    && (forall x | x in later.bindings && x !in db.bindings :: x.convId != c)
  }

  /** What one transaction of a conversation `d` may add. */
  lemma {:induction false} CopyTouches(db: Db, convId: Text, source: Text, child: Text, seqs: seq<nat>, draws: Draws,
                                       k: nat)
    requires CopyItems(db, convId, source, child, seqs, draws, k).Minted?
    requires forall i | 0 <= i < |seqs| :: ItemKey(child, None, seqs[i]) !in db.items
    requires forall i, j | 0 <= i < j < |seqs| :: seqs[i] < seqs[j]
    ensures var r := CopyItems(db, convId, source, child, seqs, draws, k).db;
            && r == db.(items := r.items, contents := r.contents)
            && (forall x | x in db.items :: x in r.items && r.items[x] == db.items[x])
            && (forall x | x in r.items && x !in db.items :: x.turnId == child)
            && (forall x | x in db.contents :: x in r.contents && r.contents[x] == db.contents[x])
            && (forall x | x in r.contents && x !in db.contents :: r.contents[x].convId == convId)
    decreases |seqs|
  {
    if |seqs| > 0 {
      var key := ItemKey(source, None, seqs[0]);
      if key !in db.items {
        CopyTouches(db, convId, source, child, seqs[1..], draws, k);
      } else {
        var db1 := AddContent(db, draws(k), convId, db.contents[db.items[key].contentId].payload);
        var db2 := AddItem(db1, ItemKey(child, None, seqs[0]), Item(db.items[key].itemType, draws(k)));
        CopyTouches(db2, convId, source, child, seqs[1..], draws, k + 1);
      }
    }
  }

  lemma MintTouches(db: Db, id: Text, b: Branch, draws: Draws)
    requires b.pin.Some? && MintChild(db, id, b, draws).Minted?
    ensures var r := MintChild(db, id, b, draws).db;
            r.convs == db.convs && r.branches == db.branches && r.bindings == db.bindings
  {
    hide CopyItems, OwnedSeqs;
    var source := b.pin.value.turnId;
    var payload := db.contents[db.turns[source].configId].payload;
    var db2 := AddTurn(AddContent(db, draws(1), b.convId, payload), draws(2),
                       Turn(b.convId, id, draws(4), 1, draws(3), draws(1)));
    CopyFrame(db2, b.convId, source, draws(2), OwnedSeqs(db, source), draws, 5);
    Locks.CopyConvs(db2, b.convId, source, draws(2), OwnedSeqs(db, source), draws, 5);
  }

  lemma MintAddsElsewhere(env: Env, db: Db, id: Text, b: Branch, draws: Draws, c: Text)
    requires RowsInv(env, db) && b.pin.Some? && b.convId != c && MintChild(db, id, b, draws).Minted?
    ensures AddsElsewhere(db, MintChild(db, id, b, draws).db, c)
  {
    hide RowsInv, CopyItems, OwnedSeqs;
    var source := b.pin.value.turnId;
    var payload := db.contents[db.turns[source].configId].payload;
    var db2 := AddTurn(AddContent(db, draws(1), b.convId, payload), draws(2),
                       Turn(b.convId, id, draws(4), 1, draws(3), draws(1)));
    NoItems(env, db, draws(2));
    OwnedAre(db, source);
    CopyTouches(db2, b.convId, source, draws(2), OwnedSeqs(db, source), draws, 5);
  }

  /** The caller of a step; None for the worker, the retention job and the deletion protocol. */
  function CallerOf(step: Step): Option<Scope>
  {
    match step
    case CreateStep(scope, _, _, _) => Some(scope)
    case PatchStep(scope, _, _, _) => Some(scope)
    case SendStep(scope, _, _, _) => Some(scope)
    case ForkStep(scope, _, _, _, _) => Some(scope)
    case _ => None
  }

  predicate ByStranger(step: Step, owner: Scope)
  {
    CallerOf(step) != None && CallerOf(step) != Some(owner)
  }

  lemma TreeStays(db: Db, later: Db, c: Text)
    requires AddsElsewhere(db, later, c)
    ensures Tree(later, c) == Tree(db, c)
  {
    hide Under, ItemsUnder;
    SameUnder(db.convs, later.convs, OfConv, c);
    SameUnder(db.branches, later.branches, OfBranch, c);
    SameUnder(db.turns, later.turns, OfTurn, c);
    SameUnder(db.attempts, later.attempts, OfAttempt, c);
    SameUnder(db.contents, later.contents, OfContent, c);
    SameUnder(db.bindings, later.bindings, OfBinding, c);
    TurnsUnder(db, later, c);
    SameItems(db.items, later.items, Under(db.turns, OfTurn, c));
  }

  lemma TurnsUnder(db: Db, later: Db, c: Text)
    requires AddsElsewhere(db, later, c)
    ensures forall x | x in later.items && x !in db.items :: x.turnId !in Under(db.turns, OfTurn, c)
  {
  }

  lemma SendAddsElsewhere(env: Env, db: Db, scope: Scope, convId: Text, q: SendRequest, draws: Draws, c: Text)
    requires Inv(env, db) && c in db.convs && db.convs[c].scope != scope
    requires SendTx(env, db, scope, convId, q, draws).SendCommitted?
    ensures AddsElsewhere(db, SendTx(env, db, scope, convId, q, draws).db, c)
  {
    hide SendTx, Lower, Executes, Key, RowsInv;
    SendAnswers(env, db, scope, convId, q, draws);
    SendWrites(env, db, scope, convId, q, draws);
    NoItems(env, db, SendTx(env, db, scope, convId, q, draws).turnId);
    assert Lower(convId) != c;
  }

  lemma ForkAddsElsewhere(env: Env, db: Db, scope: Scope, convId: Text, q: ForkRequest, draws: Draws, now: Text,
                          c: Text)
    requires Inv(env, db) && c in db.convs && db.convs[c].scope != scope
    requires ForkTx(env, db, scope, convId, q, draws, now).ForkCommitted?
    ensures AddsElsewhere(db, ForkTx(env, db, scope, convId, q, draws, now).db, c)
  {
    hide PlanFork, BranchHash, MintChild, RowsInv, Lower, IsAdmissibleNewIdentity, AddsElsewhere, PinOk;
    PlanAnswers(db, scope, convId, q, now);
    PlanPins(db, scope, convId, q, now);
    var b := PlanFork(db, scope, convId, q, now).branch;
    var key := BindingKey(Lower(convId), Lower(q.clientForkId));
    var db1 := AddFork(db, draws(0), b, key, BranchHash(env, b));
    BranchAddsElsewhere(db, draws(0), b, key, BranchHash(env, b), c);
    if q.mode.BeforeAttemptOutput? {
      AddForkKeeps(env, db, draws(0), b, key);
      MintAddsElsewhere(env, db1, draws(0), b, draws, c);
      ElsewhereTwice(db, db1, MintChild(db1, draws(0), b, draws).db, c);
    }
  }

  lemma BranchAddsElsewhere(db: Db, id: Text, b: Branch, key: BindingKey, hash: Bytes, c: Text)
    requires id !in db.branches && key !in db.bindings && b.convId != c && key.convId != c
    ensures AddsElsewhere(db, AddFork(db, id, b, key, hash), c)
  {
  }

  lemma ElsewhereTwice(a: Db, b: Db, later: Db, c: Text)
    requires AddsElsewhere(a, b, c) && AddsElsewhere(b, later, c)
    ensures AddsElsewhere(a, later, c)
  {
  }

  /** No step of another user changes anything stored of a conversation, or adds anything to it. */
  lemma StrangerLeavesTree(env: Env, db: Db, step: Step, c: Text)
    requires Inv(env, db) && c in db.convs && ByStranger(step, db.convs[c].scope)
    ensures Tree(Next(env, db, step), c) == Tree(db, c)
  {
    hide Inv, SendTx, ForkTx, Create, Patch, Tree, AddsElsewhere, Lower;
    match step
    case CreateStep(scope, create, draws, now) =>
      if Create(db, scope, create, draws, now).Some? {
        CreateAddsElsewhere(db, scope, create, draws, now, c);
        TreeStays(db, Next(env, db, step), c);
      }
    case PatchStep(scope, convId, title, archived) =>
      if Patch(db, scope, convId, title, archived).Some? {
        PatchAddsElsewhere(db, scope, convId, title, archived, c);
        TreeStays(db, Next(env, db, step), c);
      }
    case SendStep(scope, convId, send, draws) =>
      if SendTx(env, db, scope, convId, send, draws).SendCommitted? {
        SendAddsElsewhere(env, db, scope, convId, send, draws, c);
        TreeStays(db, Next(env, db, step), c);
      }
    case ForkStep(scope, convId, fork, draws, now) =>
      if ForkTx(env, db, scope, convId, fork, draws, now).ForkCommitted? {
        ForkAddsElsewhere(env, db, scope, convId, fork, draws, now, c);
        TreeStays(db, Next(env, db, step), c);
      }
    case _ =>
  }

  lemma CreateAddsElsewhere(db: Db, scope: Scope, q: CreateRequest, draws: Draws, now: Text, c: Text)
    requires c in db.convs && Create(db, scope, q, draws, now).Some?
    ensures AddsElsewhere(db, Create(db, scope, q, draws, now).value, c)
  {
    hide Create, NamesSurface;
    CreateWrites(db, scope, q, draws, now);
  }

  lemma PatchAddsElsewhere(db: Db, scope: Scope, convId: Text, title: Option<Text>, archived: Option<bool>, c: Text)
    requires c in db.convs && db.convs[c].scope != scope && Patch(db, scope, convId, title, archived).Some?
    ensures AddsElsewhere(db, Patch(db, scope, convId, title, archived).value, c)
  {
    hide Patch, Lower;
    PatchWrites(db, scope, convId, title, archived);
  }

  /** Over whole runs: however many requests other users make, everything stored of a conversation is as it
      was. */
  lemma {:induction false} StrangersLeaveTree(env: Env, db: Db, run: seq<Step>, c: Text)
    requires Inv(env, db) && AllAdmissible(run) && c in db.convs
    requires forall step | step in run :: ByStranger(step, db.convs[c].scope)
    ensures Tree(Run(env, db, run), c) == Tree(db, c)
    decreases |run|
  {
    if |run| == 0 {
      RunNowhere(env, db);
      assert run == [];
    } else {
      hide *;
      RunLast(env, db, run);
      var prefix, step := run[..|run| - 1], run[|run| - 1];
      assert step in run;
      assert forall x | x in prefix :: x in run;
      StrangersLeaveTree(env, db, prefix, c);
      TreeRoot(db, Run(env, db, prefix), c);
      StrangerLeavesTree(env, Run(env, db, prefix), step, c);
    }
  }

  lemma RunNowhere(env: Env, db: Db)
    requires Inv(env, db)
    ensures Run(env, db, []) == db
  {
    hide Inv;
  }

  lemma TreeRoot(db: Db, later: Db, c: Text)
    requires c in db.convs && Tree(later, c) == Tree(db, c)
    ensures c in later.convs && later.convs[c] == db.convs[c]
  {
    assert c in Tree(db, c).convs && Tree(db, c).convs[c] == db.convs[c];
    assert c in Tree(later, c).convs && Tree(later, c).convs[c] == later.convs[c];
  }
}
