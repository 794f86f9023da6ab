/** The durable conversation store: its tables, and each transaction of the control plane and of the
    send path as a function from one committed state to the next. A transaction that throws commits
    nothing. The worker, the retention job and the deletion protocol are further steps, bounded by
    the guards the tables carry. */
module Conversations {
  import opened Wrappers
  import opened Utf16
  import opened CanonicalJson
  import opened AuditChain
  import opened Intents

  // ---------------------------------------------------------------------------------------
  // Tables
  // ---------------------------------------------------------------------------------------

  datatype Scope = Scope(orgId: Text, userId: Text)

  datatype ConvStatus = Active | Archived | DeletedPending | Deleted

  datatype ConvMode = Governed | Passthrough

  datatype Conv = Conv(
    scope: Scope, mode: ConvMode, provider: Provider, surface: Text, model: Text, status: ConvStatus,
    title: Option<Text>)

  datatype Pin = Pin(parentId: Text, turnId: Text, attemptId: Text, mode: BoundaryMode)

  datatype Branch = Branch(
    convId: Text, provider: Provider, surface: Text, model: Text, pin: Option<Pin>, createdAt: Text)

  datatype Turn = Turn(
    convId: Text, branchId: Text, clientTurnId: Text, turnSeq: nat, currentId: Text, configId: Text)

  datatype AttemptState =
    | Accepted | Dispatching | Streaming | Completed | Stopped | Failed | Rejected | OutcomeUnknown

  datatype Attempt = Attempt(convId: Text, branchId: Text, turnId: Text, attemptSeq: nat, state: AttemptState)

  /** A turn-owned item has no attempt. */
  datatype ItemKey = ItemKey(turnId: Text, attemptId: Option<Text>, itemSeq: nat)

  datatype Item = Item(itemType: Text, contentId: Text)

  /** What the encrypted bytes hold: a JSON document, or bytes that are not one. */
  datatype Payload = Document(json: Json) | Opaque(bytes: Bytes)

  datatype Content = Content(convId: Text, payload: Payload, active: bool)

  datatype BindingKey = BindingKey(convId: Text, clientForkId: Text)

  datatype Binding = Binding(hash: Bytes, branchId: Text)

  datatype Db = Db(
    convs: map<Text, Conv>, branches: map<Text, Branch>, turns: map<Text, Turn>, attempts: map<Text, Attempt>,
    items: map<ItemKey, Item>, contents: map<Text, Content>, bindings: map<BindingKey, Binding>)

  const EMPTY := Db(map[], map[], map[], map[], map[], map[], map[])

  /** The ids a transaction draws, in order; drawing one that exists violates a primary key. */
  type Draws = nat -> Text

  predicate IsAddressable(s: ConvStatus) { s == Active || s == Archived }

  predicate IsExecutionEligible(s: ConvStatus) { s != DeletedPending && s != Deleted }

  /** `lockConversationRoot` under row-level security: the row, if the caller owns it. */
  function Root(db: Db, scope: Scope, convId: Text): Option<Conv>
  {
    var id := Lower(convId);
    if id in db.convs && db.convs[id].scope == scope then Some(db.convs[id]) else None
  }

  function BranchIn(db: Db, convId: Text, branchId: Text): Option<Branch>
  {
    var id := Lower(branchId);
    if id in db.branches && db.branches[id].convId == Lower(convId) then Some(db.branches[id]) else None
  }

  // ---------------------------------------------------------------------------------------
  // Create and patch
  // ---------------------------------------------------------------------------------------

  function CanonicalSurface(p: Provider): Option<Text>
  {
    match p
    case Codex => Some(Key("codex"))
    case ClaudeCode => Some(Key("claude_code"))
    case _ => None
  }

  predicate IsAdmissibleNewIdentity(p: Provider, surface: Text)
  {
    CanonicalSurface(p).None? || surface == CanonicalSurface(p).value
  }

  datatype CreateRequest = CreateRequest(mode: ConvMode, provider: Provider, surface: Text, model: Text)

  /** `createConversation`: the root and its one root branch together. None is a refusal. */
  function Create(db: Db, scope: Scope, q: CreateRequest, draws: Draws, now: Text): Option<Db>
  {
    if !IsAdmissibleNewIdentity(q.provider, q.surface) then None
    else if draws(0) in db.convs || draws(1) in db.branches then None
    else
      Some(db.(
        convs := db.convs[draws(0) := Conv(scope, q.mode, q.provider, q.surface, q.model, Active, None)],
        branches := db.branches[draws(1) := Branch(draws(0), q.provider, q.surface, q.model, None, now)]))
  }

  /** `patchConversation`: title and archive state of an addressable conversation. */
  function Patch(db: Db, scope: Scope, convId: Text, title: Option<Text>, archived: Option<bool>): Option<Db>
  {
    var root := Root(db, scope, convId);
    if root.None? || !IsAddressable(root.value.status) then None
    else
      var status := if archived.None? then root.value.status else if archived.value then Archived else Active;
      var t := if title.None? then root.value.title else title;
      Some(db.(convs := db.convs[Lower(convId) := root.value.(status := status, title := t)]))
  }

  // ---------------------------------------------------------------------------------------
  // Turns
  // ---------------------------------------------------------------------------------------

  /** The sequence numbers in use on a branch. */
  function SeqsOf(db: Db, branchId: Text): set<nat>
  {
    set t | t in db.turns && db.turns[t].branchId == branchId :: db.turns[t].turnSeq
  }

  ghost function MaxOf(s: set<nat>): (m: nat)
    ensures forall k | k in s :: k <= m
    ensures m in s || (s == {} && m == 0)
  {
    if s == {} then 0
    else
      var x :| x in s;
      var rest := s - {x};
      assert s == rest + {x};
      var m := MaxOf(rest);
      if m <= x then x else m
  }

  /** `nextTurnSeq`. */
  ghost function NextSeq(db: Db, branchId: Text): (n: nat)
    ensures n >= 1
  {
    MaxOf(SeqsOf(db, branchId)) + 1
  }

  ghost predicate HasClientTurn(db: Db, convId: Text, clientTurnId: Text, t: Text)
  {
    t in db.turns && db.turns[t].convId == convId && db.turns[t].clientTurnId == clientTurnId
  }

  function AddContent(db: Db, id: Text, convId: Text, payload: Payload): Db
  {
    db.(contents := db.contents[id := Content(convId, payload, true)])
  }

  /** A turn and its first attempt, born together. */
  function AddTurn(db: Db, turnId: Text, turn: Turn): Db
  {
    db.(turns := db.turns[turnId := turn],
        attempts := db.attempts[turn.currentId := Attempt(turn.convId, turn.branchId, turnId, 1, Accepted)])
  }

  function AddItem(db: Db, key: ItemKey, item: Item): Db
  {
    db.(items := db.items[key := item])
  }

  // ---------------------------------------------------------------------------------------
  // Send
  // ---------------------------------------------------------------------------------------

  const NATIVE_REQUEST_MAX_BYTES: nat := 524288

  datatype SendRequest = SendRequest(branchId: Text, clientTurnId: Text, native: Json)

  /** Uninterpreted: the digest, and the byte length of a serialized request. */
  datatype Env = Env(crypto: Crypto, size: Json -> nat)

  datatype SendError = TooLarge | SendNotFound | BranchNotFound | SurfaceUnsupported | SendCollision

  datatype SendOutcome = SendCommitted(db: Db, turnId: Text) | SendLost | SendRefused(error: SendError)

  /** `resolveDispatchPlan(...).supported`; the mode does not enter. */
  predicate Dispatchable(p: Provider, surface: Text)
  {
    || (p == Anthropic && surface == Key("anthropic_messages"))
    || (p == OpenAi && surface == Key("openai_responses"))
  }

  const INPUT_ITEM_SEQ: nat := 1

  function InputItemType(): Text { Key("native_request") }

  /** The reservation transaction of `sendTurn`. */
  ghost function SendTx(env: Env, db: Db, scope: Scope, convId: Text, q: SendRequest, draws: Draws): SendOutcome
  {
    var root := Root(db, scope, convId);
    var branch := BranchIn(db, convId, q.branchId);
    if env.size(q.native) > NATIVE_REQUEST_MAX_BYTES then SendRefused(TooLarge)
    else if root.None? || !IsAddressable(root.value.status) then SendRefused(SendNotFound)
    else if !IsExecutionEligible(root.value.status) then SendRefused(SendNotFound)
    else if branch.None? then SendRefused(BranchNotFound)
    else if !Dispatchable(branch.value.provider, branch.value.surface) then SendRefused(SurfaceUnsupported)
    else
      var conv, branchId := Lower(convId), Lower(q.branchId);
      var turn := Turn(conv, branchId, Lower(q.clientTurnId), NextSeq(db, branchId), draws(2), draws(0));
      if draws(0) in db.contents then SendRefused(SendCollision)
      else if exists t :: HasClientTurn(db, conv, Lower(q.clientTurnId), t) then SendLost
      else if draws(1) in db.turns || draws(2) in db.attempts then SendRefused(SendCollision)
      else
        var db1 := AddTurn(AddContent(db, draws(0), conv, Document(q.native)), draws(1), turn);
        SendCommitted(AddItem(db1, ItemKey(draws(1), None, INPUT_ITEM_SEQ), Item(InputItemType(), draws(0))), draws(1))
  }

  datatype SendReply =
    | SendNew(turnId: Text) | SendReplay(turnId: Text) | SendConflict | SendTransient | SendError(error: SendError)

  /** `resolveCommittedSend`: answer a lost reservation from the committed turn. `readable` is false
      when the key service cannot open the stored request. */
  ghost function ResolveSend(env: Env, db: Db, convId: Text, q: SendRequest, readable: bool): SendReply
  {
    var conv := Lower(convId);
    if t :| HasClientTurn(db, conv, Lower(q.clientTurnId), t) then
      var turn := db.turns[t];
      if turn.configId !in db.contents || db.contents[turn.configId].convId != conv then SendConflict
      else
        var stored := db.contents[turn.configId];
        if !readable || !stored.active || stored.payload.Opaque? then SendConflict
        else if SendIntentHash(env.crypto, BuildSendIntent(convId, turn.branchId, stored.payload.json))
             != SendIntentHash(env.crypto, BuildSendIntent(convId, q.branchId, q.native)) then SendConflict
        else SendReplay(t)
    else SendTransient
  }

  // ---------------------------------------------------------------------------------------
  // Fork
  // ---------------------------------------------------------------------------------------

  datatype ForkRequest = ForkRequest(
    clientForkId: Text, parentId: Text, turnId: Text, attemptId: Text, mode: BoundaryMode,
    provider: Option<Provider>, surface: Option<Text>, model: Option<Text>)

  datatype ForkError =
    | ForkNotFound | ForkSourceNotFound | PinState(mode: BoundaryMode, state: AttemptState)
    | ReplacementConfigRequired | IdentityNotAdmissible | ForkCollision | NotCopyable

  /** `FORK_PIN_VALID_STATES`. */
  predicate PinAllowed(mode: BoundaryMode, state: AttemptState)
  {
    match mode
    case AfterAttempt => state == Completed
    case BeforeAttemptOutput => state == Completed || state == Stopped || state == Failed || state == Rejected
  }

  datatype ForkPlan = PlanRefused(error: ForkError) | Plan(branch: Branch)

  /** Everything `createFork` checks before it looks at the binding, and the branch it would insert. */
  function PlanFork(db: Db, scope: Scope, convId: Text, q: ForkRequest, now: Text): ForkPlan
  {
    var root := Root(db, scope, convId);
    var parent := BranchIn(db, convId, q.parentId);
    var turnId, attemptId := Lower(q.turnId), Lower(q.attemptId);
    if root.None? || !IsAddressable(root.value.status) then PlanRefused(ForkNotFound)
    else if !IsExecutionEligible(root.value.status) then PlanRefused(ForkNotFound)
    else if parent.None? then PlanRefused(ForkSourceNotFound)
    else if attemptId !in db.attempts || db.attempts[attemptId].convId != Lower(convId)
         || db.attempts[attemptId].branchId != Lower(q.parentId) || db.attempts[attemptId].turnId != turnId then
      PlanRefused(ForkSourceNotFound)
    else if !PinAllowed(q.mode, db.attempts[attemptId].state) then
      PlanRefused(PinState(q.mode, db.attempts[attemptId].state))
    else
      var p := parent.value;
      var provider := if q.provider.Some? then q.provider.value else p.provider;
      var surface := if q.surface.Some? then q.surface.value else p.surface;
      var model := if q.model.Some? then q.model.value else p.model;
      if q.mode.BeforeAttemptOutput? && (provider != p.provider || surface != p.surface || model != p.model) then
        PlanRefused(ReplacementConfigRequired)
      else
        Plan(Branch(Lower(convId), provider, surface, model, Some(Pin(Lower(q.parentId), turnId, attemptId, q.mode)),
                    now))
  }

  /** The canonical intent a fork branch stands for. */
  function IntentOf(b: Branch): ForkIntent
    requires b.pin.Some?
  {
    BuildForkIntent(b.convId, b.pin.value.parentId, b.pin.value.turnId, b.pin.value.attemptId, b.pin.value.mode,
                    b.provider, b.surface, b.model)
  }

  function BranchHash(env: Env, b: Branch): Bytes
    requires b.pin.Some?
  {
    ForkIntentHash(env.crypto, IntentOf(b))
  }

  datatype ForkView = ForkView(branchId: Text, branch: Branch, child: Option<(Text, Text)>)

  datatype ForkOutcome = ForkCommitted(db: Db, view: ForkView) | ForkLost(hash: Bytes) | ForkRefused(error: ForkError)

  /** The candidate transaction of `createFork`. */
  ghost function ForkTx(env: Env, db: Db, scope: Scope, convId: Text, q: ForkRequest, draws: Draws, now: Text)
    : ForkOutcome
  {
    var plan := PlanFork(db, scope, convId, q, now);
    if plan.PlanRefused? then ForkRefused(plan.error)
    else
      var key := BindingKey(Lower(convId), Lower(q.clientForkId));
      var b := plan.branch;
      if key !in db.bindings && !IsAdmissibleNewIdentity(b.provider, b.surface) then ForkRefused(IdentityNotAdmissible)
      else if draws(0) in db.branches then ForkRefused(ForkCollision)
      else if key in db.bindings then ForkLost(BranchHash(env, b))
      else
        var db1 := AddFork(db, draws(0), b, key, BranchHash(env, b));
        if q.mode.AfterAttempt? then ForkCommitted(db1, ForkView(draws(0), b, None))
        else
          var m := MintChild(db1, draws(0), b, draws);
          if m.MintFailed? then ForkRefused(m.error)
          else ForkCommitted(m.db, ForkView(draws(0), b, Some((draws(2), draws(3)))))
  }

  function AddFork(db: Db, id: Text, b: Branch, key: BindingKey, hash: Bytes): Db
  {
    db.(branches := db.branches[id := b], bindings := db.bindings[key := Binding(hash, id)])
  }

  datatype Mint = Minted(db: Db) | MintFailed(error: ForkError)

  predicate Copyable(db: Db, convId: Text, contentId: Text)
  {
    contentId in db.contents && db.contents[contentId].convId == convId && db.contents[contentId].active
  }

  /** `mintRegenerationChild`: the child's first turn with a copy of the source turn's request
      config and of its turn-owned items, and a fresh first attempt. */
  ghost function MintChild(db: Db, childBranchId: Text, b: Branch, draws: Draws): Mint
    requires b.pin.Some?
  {
    var source := b.pin.value.turnId;
    if source !in db.turns || db.turns[source].convId != b.convId
       || db.turns[source].branchId != b.pin.value.parentId then
      MintFailed(ForkSourceNotFound)
    else
      var configId := db.turns[source].configId;
      if !Copyable(db, b.convId, configId) then MintFailed(NotCopyable)
      else if draws(1) in db.contents || draws(2) in db.turns || draws(3) in db.attempts
           || exists t :: HasClientTurn(db, b.convId, draws(4), t) then MintFailed(ForkCollision)
      else
        var db1 := AddContent(db, draws(1), b.convId, db.contents[configId].payload);
        var db2 := AddTurn(db1, draws(2), Turn(b.convId, childBranchId, draws(4), 1, draws(3), draws(1)));
        CopyItems(db2, b.convId, source, draws(2), OwnedSeqs(db, source), draws, 5)
  }

  /** The sequence numbers of a turn's own items, in order. */
  ghost function OwnedSeqs(db: Db, turnId: Text): (r: seq<nat>)
  {
    Ascending(set k | k in db.items && k.turnId == turnId && k.attemptId.None? :: k.itemSeq)
  }

  ghost function MinOf(s: set<nat>): (m: nat)
    requires s != {}
    ensures m in s && forall k | k in s :: m <= k
  {
    var x :| x in s;
    if s == {x} then x
    else
      var rest := s - {x};
      assert s == rest + {x};
      var m := MinOf(rest);
      if x <= m then x else m
  }

  ghost function Ascending(s: set<nat>): (r: seq<nat>)
    ensures forall k :: k in r <==> k in s
  {
    if s == {} then [] else [MinOf(s)] + Ascending(s - {MinOf(s)})
  }

  lemma {:induction false} AscendingSorted(s: set<nat>)
    ensures forall i, j | 0 <= i < j < |Ascending(s)| :: Ascending(s)[i] < Ascending(s)[j]
    decreases s
  {
    if s != {} {
      var rest := Ascending(s - {MinOf(s)});
      AscendingSorted(s - {MinOf(s)});
      assert forall j | 0 <= j < |rest| :: rest[j] in rest;
    }
  }

  /** One copied content row and one item row for each of the source's items. */
  ghost function CopyItems(db: Db, convId: Text, source: Text, child: Text, seqs: seq<nat>, draws: Draws, k: nat): Mint
    decreases |seqs|
  {
    if |seqs| == 0 then Minted(db)
    else
      var key := ItemKey(source, None, seqs[0]);
      if key !in db.items then CopyItems(db, convId, source, child, seqs[1..], draws, k)
      else if !Copyable(db, convId, db.items[key].contentId) then MintFailed(NotCopyable)
      else if draws(k) in db.contents then MintFailed(ForkCollision)
      else
        var db1 := AddContent(db, draws(k), convId, db.contents[db.items[key].contentId].payload);
        var db2 := AddItem(db1, ItemKey(child, None, seqs[0]), Item(db.items[key].itemType, draws(k)));
        CopyItems(db2, convId, source, child, seqs[1..], draws, k + 1)
  }

  datatype ForkReply =
    | ForkNew(view: ForkView) | ForkReplay(view: ForkView) | ForkConflict | ForkFailed(error: ForkError)
    | InvariantBreak

  ghost predicate IsChild(db: Db, branchId: Text, t: Text, a: Text)
  {
    && t in db.turns && db.turns[t].branchId == branchId && db.turns[t].turnSeq == 1
    && a in db.attempts && db.attempts[a].turnId == t && db.attempts[a].attemptSeq == 1
  }

  /** `getForkMintedChildTurn`: by the immutable sequence numbers, never by the current attempt. */
  ghost function ChildOf(db: Db, branchId: Text): Option<(Text, Text)>
  {
    if t, a :| IsChild(db, branchId, t, a) then Some((t, a)) else None
  }

  /** `resolveCommittedFork`: answer a lost reservation from the committed binding. */
  ghost function ResolveFork(db: Db, convId: Text, clientForkId: Text, hash: Bytes): ForkReply
  {
    var key := BindingKey(Lower(convId), Lower(clientForkId));
    if key !in db.bindings then InvariantBreak
    else
      var binding := db.bindings[key];
      if binding.hash != hash then ForkConflict
      else if binding.branchId !in db.branches || db.branches[binding.branchId].convId != key.convId
           || db.branches[binding.branchId].pin.None? then InvariantBreak
      else
        var b := db.branches[binding.branchId];
        if b.pin.value.mode.AfterAttempt? then ForkReplay(ForkView(binding.branchId, b, None))
        else
          var child := ChildOf(db, binding.branchId);
          if child.None? then InvariantBreak else ForkReplay(ForkView(binding.branchId, b, child))
  }

  // ---------------------------------------------------------------------------------------
  // The environment: worker, retention and deletion
  // ---------------------------------------------------------------------------------------

  /** The lawful edges of a conversation's lifecycle. */
  predicate StatusEdge(a: ConvStatus, b: ConvStatus)
  {
    || (a == Active && (b == Archived || b == DeletedPending))
    || (a == Archived && (b == Active || b == DeletedPending))
    || (a == DeletedPending && b == Deleted)
  }

  /** The lawful edges of an attempt's state. */
  predicate AttemptEdge(a: AttemptState, b: AttemptState)
  {
    match a
    case Accepted => b == Dispatching || b == Stopped || b == Failed || b == Rejected
    case Dispatching => b != Dispatching && b != Completed
    case Streaming => b == Completed || b == Stopped || b == Failed || b == OutcomeUnknown
    case OutcomeUnknown => b == Completed || b == Failed
    case _ => false
  }

  /** From where each status is reached: deletion has no way back. */
  lemma StatusesByTarget(a: ConvStatus, b: ConvStatus)
    ensures StatusEdge(a, b) <==>
              match b
              case Active => a == Archived
              case Archived => a == Active
              case DeletedPending => a in {Active, Archived}
              case Deleted => a == DeletedPending
  {
  }

  /** From where each state is reached: an ended attempt never moves, completion needs a stream or its
      recovery, rejection comes before one, and the one way back is from dispatching to accepted. */
  lemma EdgesByTarget(a: AttemptState, b: AttemptState)
    ensures AttemptEdge(a, b) <==>
              match b
              case Accepted => a == Dispatching
              case Dispatching => a == Accepted
              case Streaming => a == Dispatching
              case Completed => a in {Streaming, OutcomeUnknown}
              case Stopped => a in {Accepted, Dispatching, Streaming}
              case Failed => a in {Accepted, Dispatching, Streaming, OutcomeUnknown}
              case Rejected => a in {Accepted, Dispatching}
              case OutcomeUnknown => a in {Dispatching, Streaming}
  {
  }

  datatype Step =
    | CreateStep(scope: Scope, create: CreateRequest, draws: Draws, now: Text)
    | PatchStep(scope: Scope, convId: Text, title: Option<Text>, archived: Option<bool>)
    | SendStep(scope: Scope, convId: Text, send: SendRequest, draws: Draws)
    | ForkStep(scope: Scope, convId: Text, fork: ForkRequest, draws: Draws, now: Text)
    | LifecycleStep(convId: Text, status: ConvStatus)
    | MoveAttempt(attemptId: Text, state: AttemptState)
    | MintAttempt(turnId: Text, attemptId: Text, n: nat)
    | Repoint(turnId: Text, attemptId: Text)
    | AddOutput(key: ItemKey, itemType: Text, contentId: Text, payload: Payload)
    | Shred(contentId: Text)

  /** The state a step commits; a step its guards refuse changes nothing. */
  ghost function Next(env: Env, db: Db, step: Step): Db
  {
    match step
    case CreateStep(scope, create, draws, now) =>
      var r := Create(db, scope, create, draws, now);
      if r.None? then db else r.value
    case PatchStep(scope, convId, title, archived) =>
      var r := Patch(db, scope, convId, title, archived);
      if r.None? then db else r.value
    case SendStep(scope, convId, send, draws) =>
      var r := SendTx(env, db, scope, convId, send, draws);
      if r.SendCommitted? then r.db else db
    case ForkStep(scope, convId, fork, draws, now) =>
      var r := ForkTx(env, db, scope, convId, fork, draws, now);
      if r.ForkCommitted? then r.db else db
    case LifecycleStep(convId, status) =>
      if convId in db.convs && StatusEdge(db.convs[convId].status, status) then
        db.(convs := db.convs[convId := db.convs[convId].(status := status)])
      else db
    case MoveAttempt(attemptId, state) =>
      if attemptId in db.attempts && AttemptEdge(db.attempts[attemptId].state, state) then
        db.(attempts := db.attempts[attemptId := db.attempts[attemptId].(state := state)])
      else db
    case MintAttempt(turnId, attemptId, n) =>
      if turnId in db.turns && attemptId !in db.attempts && n >= 1 && !(exists a :: HasSeq(db, turnId, n, a)) then
        db.(attempts := db.attempts[attemptId :=
          Attempt(db.turns[turnId].convId, db.turns[turnId].branchId, turnId, n, Accepted)])
      else db
    case Repoint(turnId, attemptId) =>
      if turnId in db.turns && attemptId in db.attempts && db.attempts[attemptId].turnId == turnId
         && db.turns[turnId].currentId in db.attempts
         && db.attempts[db.turns[turnId].currentId].attemptSeq < db.attempts[attemptId].attemptSeq then
        db.(turns := db.turns[turnId := db.turns[turnId].(currentId := attemptId)])
      else db
    case AddOutput(key, itemType, contentId, payload) =>
      if key.turnId in db.turns && key.attemptId.Some? && key.attemptId.value in db.attempts
         && db.attempts[key.attemptId.value].turnId == key.turnId && key !in db.items && contentId !in db.contents then
        AddItem(AddContent(db, contentId, db.turns[key.turnId].convId, payload), key, Item(itemType, contentId))
      else db
    case Shred(contentId) =>
      if contentId in db.contents then
        db.(contents := db.contents[contentId := db.contents[contentId].(active := false)])
      else db
  }

  ghost predicate HasSeq(db: Db, turnId: Text, n: nat, a: Text)
  {
    a in db.attempts && db.attempts[a].turnId == turnId && db.attempts[a].attemptSeq == n
  }

  // ---------------------------------------------------------------------------------------
  // The invariant
  // ---------------------------------------------------------------------------------------

  ghost predicate PinOk(db: Db, convId: Text, pin: Pin)
  {
    && pin.parentId in db.branches && db.branches[pin.parentId].convId == convId
    && pin.attemptId in db.attempts
    && var a := db.attempts[pin.attemptId];
    a.convId == convId && a.branchId == pin.parentId && a.turnId == pin.turnId && PinAllowed(pin.mode, a.state)
  }

  /** A branch belongs to a conversation, and a fork pins an attempt of its parent branch in a state
      its boundary mode allows. */
  ghost predicate BranchOk(db: Db, id: Text)
    requires id in db.branches
  {
    var b := db.branches[id];
    b.convId in db.convs && (b.pin.Some? ==> PinOk(db, b.convId, b.pin.value))
  }

  ghost predicate RootAt(db: Db, convId: Text, b: Text)
  {
    b in db.branches && db.branches[b].convId == convId && db.branches[b].pin.None?
  }

  /** Every conversation has exactly one root branch. */
  ghost predicate OneRoot(db: Db)
  {
    && (forall c | c in db.convs :: exists b :: RootAt(db, c, b))
    && (forall c, b, d | RootAt(db, c, b) && RootAt(db, c, d) :: b == d)
  }

  ghost predicate TurnAt(db: Db, branchId: Text, k: nat, t: Text)
  {
    t in db.turns && db.turns[t].branchId == branchId && db.turns[t].turnSeq == k
  }

  ghost predicate Placed(db: Db, branchId: Text, k: nat)
  {
    exists t :: TurnAt(db, branchId, k, t)
  }

  /** The turns of every branch are numbered 1..n, each number once. */
  ghost predicate TurnsDense(db: Db)
  {
    && (forall t, k: nat | t in db.turns && 1 <= k <= db.turns[t].turnSeq :: Placed(db, db.turns[t].branchId, k))
    && (forall b, k: nat, t, u | TurnAt(db, b, k, t) && TurnAt(db, b, k, u) :: t == u)
  }

  /** A client turn id names at most one turn of a conversation. */
  ghost predicate ClientTurnsUnique(db: Db)
  {
    forall c, k, t, u | HasClientTurn(db, c, k, t) && HasClientTurn(db, c, k, u) :: t == u
  }

  /** A turn lies in a branch of its conversation, has an attempt 1, and its current attempt is one of
      its own. */
  ghost predicate TurnOk(db: Db, id: Text)
    requires id in db.turns
  {
    var t := db.turns[id];
    && t.turnSeq >= 1 && t.branchId in db.branches && db.branches[t.branchId].convId == t.convId
    && t.configId in db.contents && db.contents[t.configId].convId == t.convId
    && t.currentId in db.attempts && db.attempts[t.currentId].turnId == id
    && (exists a :: HasSeq(db, id, 1, a))
  }

  ghost predicate AttemptOk(db: Db, id: Text)
    requires id in db.attempts
  {
    var a := db.attempts[id];
    && a.attemptSeq >= 1 && a.turnId in db.turns
    && db.turns[a.turnId].convId == a.convId && db.turns[a.turnId].branchId == a.branchId
  }

  ghost predicate AttemptsUnique(db: Db)
  {
    forall t, k, a, b | HasSeq(db, t, k, a) && HasSeq(db, t, k, b) :: a == b
  }

  ghost predicate ItemOk(db: Db, key: ItemKey)
    requires key in db.items
  {
    && key.turnId in db.turns
    && db.items[key].contentId in db.contents
    && db.contents[db.items[key].contentId].convId == db.turns[key.turnId].convId
    && (key.attemptId.Some? ==>
          key.attemptId.value in db.attempts && db.attempts[key.attemptId.value].turnId == key.turnId)
  }

  ghost predicate ContentRowOk(db: Db, id: Text)
    requires id in db.contents
  {
    db.contents[id].convId in db.convs && PayloadOk(db.contents[id].payload)
  }

  /** A stored document is a value `JSON.parse` can return. */
  ghost predicate PayloadOk(p: Payload)
  {
    p.Document? ==> WellFormed(p.json) && Plain(p.json)
  }

  /** Requests arrive as parsed JSON. */
  ghost predicate Admissible(step: Step)
  {
    match step
    case SendStep(_, _, send, _) => PayloadOk(Document(send.native))
    case AddOutput(_, _, _, payload) => PayloadOk(payload)
    case _ => true
  }

  /** A binding names a fork branch of its conversation and records the hash of that fork. */
  ghost predicate BindingOk(env: Env, db: Db, key: BindingKey)
    requires key in db.bindings
  {
    var b := db.bindings[key];
    && b.branchId in db.branches && db.branches[b.branchId].convId == key.convId
    && db.branches[b.branchId].pin.Some? && b.hash == BranchHash(env, db.branches[b.branchId])
  }

  /** Every fork branch was minted under exactly one key. */
  ghost predicate ForksBound(db: Db)
  {
    && (forall id | id in db.branches && db.branches[id].pin.Some? :: exists key :: BoundTo(db, key, id))
    && (forall k, l, id | BoundTo(db, k, id) && BoundTo(db, l, id) :: k == l)
  }

  ghost predicate BoundTo(db: Db, key: BindingKey, id: Text)
  {
    key in db.bindings && db.bindings[key].branchId == id
  }

  /** A regeneration fork has its minted child turn. */
  ghost predicate ChildOk(db: Db, id: Text)
    requires id in db.branches
  {
    var b := db.branches[id];
    b.pin.Some? && b.pin.value.mode.BeforeAttemptOutput? ==> exists t, a :: IsChild(db, id, t, a)
  }

  /** All of the invariant but the children of regeneration forks, which a fork inserts last. */
  ghost predicate RowsInv(env: Env, db: Db)
  {
    && (forall id | id in db.branches :: BranchOk(db, id))
    && (forall id | id in db.turns :: TurnOk(db, id))
    && (forall id | id in db.attempts :: AttemptOk(db, id))
    && (forall key | key in db.items :: ItemOk(db, key))
    && (forall id | id in db.contents :: ContentRowOk(db, id))
    && (forall key | key in db.bindings :: BindingOk(env, db, key))
    && OneRoot(db) && TurnsDense(db) && ClientTurnsUnique(db) && AttemptsUnique(db) && ForksBound(db)
  }

  ghost predicate Inv(env: Env, db: Db)
  {
    RowsInv(env, db) && forall id | id in db.branches :: ChildOk(db, id)
  }

  // ---------------------------------------------------------------------------------------
  // What no step undoes
  // ---------------------------------------------------------------------------------------

  predicate IsFinal(s: AttemptState) { s == Completed || s == Stopped || s == Failed || s == Rejected }

  predicate StatusLater(a: ConvStatus, b: ConvStatus)
  {
    a == b || IsAddressable(a) || (a == DeletedPending && b == Deleted)
  }

  /** Rows are never removed; identities, pins, bindings, stored bytes and final states never change. */
  ghost predicate Evolves(db: Db, db': Db)
  {
    && (forall c | c in db.convs :: c in db'.convs
          && db'.convs[c].(status := db.convs[c].status, title := db.convs[c].title) == db.convs[c]
          && StatusLater(db.convs[c].status, db'.convs[c].status))
    && (forall b | b in db.branches :: b in db'.branches && db'.branches[b] == db.branches[b])
    && (forall t | t in db.turns :: t in db'.turns && db'.turns[t].(currentId := db.turns[t].currentId) == db.turns[t])
    && (forall a | a in db.attempts :: a in db'.attempts
          && db'.attempts[a].(state := db.attempts[a].state) == db.attempts[a]
          && (IsFinal(db.attempts[a].state) ==> db'.attempts[a].state == db.attempts[a].state))
    && (forall k | k in db.items :: k in db'.items && db'.items[k] == db.items[k])
    && (forall i | i in db.contents :: i in db'.contents
          && db'.contents[i].(active := db.contents[i].active) == db.contents[i]
          && (db'.contents[i].active ==> db.contents[i].active))
    && (forall k | k in db.bindings :: k in db'.bindings && db'.bindings[k] == db.bindings[k])
  }

  lemma EvolvesReflexive(db: Db)
    ensures Evolves(db, db)
  {
  }

  lemma EvolvesTransitive(a: Db, b: Db, c: Db)
    requires Evolves(a, b) && Evolves(b, c)
    ensures Evolves(a, c)
  {
  }
}
