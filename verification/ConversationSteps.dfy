/** Every step of the conversation store keeps the invariant and only moves the database forward. */
module ConversationSteps {
  import opened Wrappers
  import opened Utf16
  import opened Intents
  import opened Conversations

  // ---------------------------------------------------------------------------------------
  // What was right about an old row stays right
  // ---------------------------------------------------------------------------------------

  lemma PinPersists(db: Db, db': Db, convId: Text, pin: Pin)
    requires Evolves(db, db') && PinOk(db, convId, pin)
    ensures PinOk(db', convId, pin)
  {
    assert db'.attempts[pin.attemptId].(state := db.attempts[pin.attemptId].state) == db.attempts[pin.attemptId];
  }

  lemma BranchPersists(db: Db, db': Db, id: Text)
    requires Evolves(db, db') && id in db.branches && BranchOk(db, id)
    ensures id in db'.branches && BranchOk(db', id)
  {
    hide PinOk;
    if db.branches[id].pin.Some? { PinPersists(db, db', db.branches[id].convId, db.branches[id].pin.value); }
  }

  lemma SeqPersists(db: Db, db': Db, t: Text, n: nat, a: Text)
    requires Evolves(db, db') && HasSeq(db, t, n, a)
    ensures HasSeq(db', t, n, a)
  {
    assert db'.attempts[a].(state := db.attempts[a].state) == db.attempts[a];
  }

  lemma TurnPersists(db: Db, db': Db, id: Text)
    requires Evolves(db, db') && id in db.turns && TurnOk(db, id) && db'.turns[id] == db.turns[id]
    ensures TurnOk(db', id)
  {
    var t := db.turns[id];
    var a :| HasSeq(db, id, 1, a);
    SeqPersists(db, db', id, 1, a);
    assert db'.attempts[t.currentId].(state := db.attempts[t.currentId].state) == db.attempts[t.currentId];
    assert db'.contents[t.configId].(active := db.contents[t.configId].active) == db.contents[t.configId];
  }

  lemma AttemptPersists(db: Db, db': Db, id: Text)
    requires Evolves(db, db') && id in db.attempts && AttemptOk(db, id)
    ensures AttemptOk(db', id)
  {
    var a := db.attempts[id];
    assert db'.attempts[id].(state := a.state) == a;
    assert db'.turns[a.turnId].(currentId := db.turns[a.turnId].currentId) == db.turns[a.turnId];
  }

  lemma ItemPersists(db: Db, db': Db, key: ItemKey)
    requires Evolves(db, db') && key in db.items && ItemOk(db, key)
    ensures ItemOk(db', key)
  {
    var c := db.items[key].contentId;
    assert db'.turns[key.turnId].(currentId := db.turns[key.turnId].currentId) == db.turns[key.turnId];
    assert db'.contents[c].(active := db.contents[c].active) == db.contents[c];
    if key.attemptId.Some? {
      var a := key.attemptId.value;
      assert db'.attempts[a].(state := db.attempts[a].state) == db.attempts[a];
    }
  }

  lemma ContentPersists(db: Db, db': Db, id: Text)
    requires Evolves(db, db') && id in db.contents && ContentRowOk(db, id)
    ensures ContentRowOk(db', id)
  {
    assert db'.contents[id].(active := db.contents[id].active) == db.contents[id];
  }

  lemma BindingPersists(env: Env, db: Db, db': Db, key: BindingKey)
    requires Evolves(db, db') && key in db.bindings && BindingOk(env, db, key)
    ensures BindingOk(env, db', key)
  {
    hide BranchHash;
  }

  lemma ChildPersists(db: Db, db': Db, b: Text, t: Text, a: Text)
    requires Evolves(db, db') && IsChild(db, b, t, a)
    ensures IsChild(db', b, t, a)
  {
    assert db'.turns[t].(currentId := db.turns[t].currentId) == db.turns[t];
    assert db'.attempts[a].(state := db.attempts[a].state) == db.attempts[a];
  }

  lemma ChildOkPersists(db: Db, db': Db, id: Text)
    requires Evolves(db, db') && id in db.branches && ChildOk(db, id)
    ensures id in db'.branches && ChildOk(db', id)
  {
    hide IsChild;
    if t, a :| IsChild(db, id, t, a) { ChildPersists(db, db', id, t, a); }
  }

  /** The rows that were there are right; what is left to show is about new and changed rows. */
  lemma OldRows(env: Env, db: Db, db': Db)
    requires RowsInv(env, db) && Evolves(db, db')
    ensures forall id | id in db.branches :: id in db'.branches && BranchOk(db', id)
    ensures forall id | id in db.turns :: id in db'.turns && (db'.turns[id] == db.turns[id] ==> TurnOk(db', id))
    ensures forall id | id in db.attempts :: id in db'.attempts && AttemptOk(db', id)
    ensures forall key | key in db.items :: key in db'.items && ItemOk(db', key)
    ensures forall id | id in db.contents :: id in db'.contents && ContentRowOk(db', id)
    ensures forall key | key in db.bindings :: key in db'.bindings && BindingOk(env, db', key)
  {
    forall id | id in db.branches ensures id in db'.branches && BranchOk(db', id) {
      hide *;
      BranchPersists(db, db', id);
    }
    forall id | id in db.turns ensures id in db'.turns && (db'.turns[id] == db.turns[id] ==> TurnOk(db', id)) {
      hide *;
      if db'.turns[id] == db.turns[id] { TurnPersists(db, db', id); }
    }
    forall id | id in db.attempts ensures id in db'.attempts && AttemptOk(db', id) {
      hide *;
      AttemptPersists(db, db', id);
    }
    forall key | key in db.items ensures key in db'.items && ItemOk(db', key) {
      hide *;
      ItemPersists(db, db', key);
    }
    forall id | id in db.contents ensures id in db'.contents && ContentRowOk(db', id) {
      hide *;
      ContentPersists(db, db', id);
    }
    forall key | key in db.bindings ensures key in db'.bindings && BindingOk(env, db', key) {
      hide *;
      BindingPersists(env, db, db', key);
    }
  }

  // ---------------------------------------------------------------------------------------
  // Uniqueness and density under each kind of change
  // ---------------------------------------------------------------------------------------

  lemma SameRoots(db: Db, db': Db)
    requires OneRoot(db) && db'.convs.Keys == db.convs.Keys
    requires forall c, b :: RootAt(db', c, b) <==> RootAt(db, c, b)
    ensures OneRoot(db')
  {
    hide RootAt;
    forall c | c in db'.convs ensures exists b :: RootAt(db', c, b) {
      assert c in db.convs.Keys;
      var b :| RootAt(db, c, b);
    }
  }

  lemma RootsKept(db: Db, db': Db)
    requires db'.branches == db.branches
    ensures forall c, b :: RootAt(db', c, b) <==> RootAt(db, c, b)
  {
  }

  lemma TurnsKept(db: Db, db': Db)
    requires Evolves(db, db') && db'.turns.Keys == db.turns.Keys
    ensures TurnsDense(db) ==> TurnsDense(db')
    ensures ClientTurnsUnique(db) ==> ClientTurnsUnique(db')
  {
    forall t | t in db.turns ensures t in db'.turns && db'.turns[t].branchId == db.turns[t].branchId
      && db'.turns[t].turnSeq == db.turns[t].turnSeq && db'.turns[t].convId == db.turns[t].convId
      && db'.turns[t].clientTurnId == db.turns[t].clientTurnId
    {
      assert db'.turns[t].(currentId := db.turns[t].currentId) == db.turns[t];
    }
    forall t | t in db'.turns ensures t in db.turns { assert t in db'.turns.Keys; }
    forall b, k: nat, t ensures TurnAt(db', b, k, t) <==> TurnAt(db, b, k, t) {}
    forall c, k, t ensures HasClientTurn(db', c, k, t) <==> HasClientTurn(db, c, k, t) {}
    DenseTransfer(db, db');
  }

  lemma DenseTransfer(db: Db, db': Db)
    requires forall b, k: nat, t :: TurnAt(db', b, k, t) <==> TurnAt(db, b, k, t)
    ensures TurnsDense(db) ==> TurnsDense(db')
  {
    if TurnsDense(db) {
      forall t, k: nat | t in db'.turns && 1 <= k <= db'.turns[t].turnSeq
        ensures Placed(db', db'.turns[t].branchId, k)
      {
        var b, n := db'.turns[t].branchId, db'.turns[t].turnSeq;
        assert TurnAt(db', b, n, t);
        assert TurnAt(db, b, n, t);
        assert Placed(db, b, k);
        var u :| TurnAt(db, b, k, u);
        assert TurnAt(db', b, k, u);
      }
    }
  }

  lemma AttemptsKept(db: Db, db': Db)
    requires Evolves(db, db') && db'.attempts.Keys == db.attempts.Keys
    ensures AttemptsUnique(db) ==> AttemptsUnique(db')
  {
    forall a | a in db.attempts ensures a in db'.attempts && db'.attempts[a].turnId == db.attempts[a].turnId
      && db'.attempts[a].attemptSeq == db.attempts[a].attemptSeq
    {
      assert db'.attempts[a].(state := db.attempts[a].state) == db.attempts[a];
    }
    forall a | a in db'.attempts ensures a in db.attempts { assert a in db'.attempts.Keys; }
    forall t, n: nat, a ensures HasSeq(db', t, n, a) <==> HasSeq(db, t, n, a) {}
  }

  lemma ForksKept(db: Db, db': Db)
    requires db'.branches == db.branches && db'.bindings == db.bindings
    ensures ForksBound(db) ==> ForksBound(db')
  {
    forall k, id ensures BoundTo(db', k, id) <==> BoundTo(db, k, id) {}
    if ForksBound(db) {
      forall id | id in db'.branches && db'.branches[id].pin.Some? ensures exists key :: BoundTo(db', key, id) {
        var key :| BoundTo(db, key, id);
      }
    }
  }

  ghost predicate GlobalsOk(db: Db)
  {
    OneRoot(db) && TurnsDense(db) && ClientTurnsUnique(db) && AttemptsUnique(db) && ForksBound(db)
  }

  lemma QuietGlobals(db: Db, db': Db)
    requires GlobalsOk(db) && Evolves(db, db')
    requires db'.convs.Keys == db.convs.Keys && db'.branches == db.branches && db'.bindings == db.bindings
    requires db'.turns.Keys == db.turns.Keys && db'.attempts.Keys == db.attempts.Keys
    ensures GlobalsOk(db')
  {
    hide OneRoot, TurnsDense, ClientTurnsUnique, AttemptsUnique, ForksBound, Evolves;
    RootsKept(db, db');
    SameRoots(db, db');
    TurnsKept(db, db');
    AttemptsKept(db, db');
    ForksKept(db, db');
  }

  /** The rows of `db'` that are not in `db`, or changed, are right. */
  ghost predicate NewRowsOk(env: Env, db: Db, db': Db)
  {
    && (forall id | id in db'.branches && id !in db.branches :: BranchOk(db', id))
    && (forall id | id in db'.turns && (id !in db.turns || db'.turns[id] != db.turns[id]) :: TurnOk(db', id))
    && (forall id | id in db'.attempts && id !in db.attempts :: AttemptOk(db', id))
    && (forall key | key in db'.items && key !in db.items :: ItemOk(db', key))
    && (forall id | id in db'.contents && id !in db.contents :: ContentRowOk(db', id))
    && (forall key | key in db'.bindings && key !in db.bindings :: BindingOk(env, db', key))
  }

  lemma RowsFromNew(env: Env, db: Db, db': Db)
    requires RowsInv(env, db) && Evolves(db, db') && NewRowsOk(env, db, db') && GlobalsOk(db')
    ensures RowsInv(env, db')
  {
    hide BranchOk, TurnOk, AttemptOk, ItemOk, ContentRowOk, BindingOk, Evolves, OneRoot, TurnsDense,
         ClientTurnsUnique, AttemptsUnique, ForksBound;
    OldRows(env, db, db');
  }

  lemma RowsGlobals(env: Env, db: Db)
    requires RowsInv(env, db)
    ensures GlobalsOk(db)
  {
    hide OneRoot, TurnsDense, ClientTurnsUnique, AttemptsUnique, ForksBound;
  }

  /** A change that adds no conversation, branch, turn, attempt or binding. */
  lemma QuietKeeps(env: Env, db: Db, db': Db)
    requires RowsInv(env, db) && Evolves(db, db') && NewRowsOk(env, db, db')
    requires db'.convs.Keys == db.convs.Keys && db'.branches == db.branches && db'.bindings == db.bindings
    requires db'.turns.Keys == db.turns.Keys && db'.attempts.Keys == db.attempts.Keys
    ensures RowsInv(env, db')
  {
    hide *;
    RowsGlobals(env, db);
    QuietGlobals(db, db');
    RowsFromNew(env, db, db');
  }

  lemma ChildrenKept(env: Env, db: Db, db': Db)
    requires Inv(env, db) && Evolves(db, db') && RowsInv(env, db')
    requires forall id | id in db'.branches && id !in db.branches :: ChildOk(db', id)
    ensures Inv(env, db')
  {
    hide RowsInv, Evolves, ChildOk;
    forall id | id in db'.branches ensures ChildOk(db', id) {
      if id in db.branches { ChildOkPersists(db, db', id); }
    }
  }

  // ---------------------------------------------------------------------------------------
  // The single inserts a transaction is made of
  // ---------------------------------------------------------------------------------------

  lemma AddContentKeeps(env: Env, db: Db, id: Text, convId: Text, payload: Payload)
    requires RowsInv(env, db) && id !in db.contents && convId in db.convs && PayloadOk(payload)
    ensures RowsInv(env, AddContent(db, id, convId, payload)) && Evolves(db, AddContent(db, id, convId, payload))
  {
    hide RowsInv, NewRowsOk, Evolves;
    AddContentRows(env, db, id, convId, payload);
    QuietKeeps(env, db, AddContent(db, id, convId, payload));
  }

  lemma AddContentRows(env: Env, db: Db, id: Text, convId: Text, payload: Payload)
    requires id !in db.contents && convId in db.convs && PayloadOk(payload)
    ensures NewRowsOk(env, db, AddContent(db, id, convId, payload))
    ensures Evolves(db, AddContent(db, id, convId, payload))
  {
    hide PayloadOk, BranchOk, TurnOk, AttemptOk, ItemOk, BindingOk;
  }

  lemma AddItemKeeps(env: Env, db: Db, key: ItemKey, item: Item)
    requires RowsInv(env, db) && key !in db.items && key.turnId in db.turns
    requires item.contentId in db.contents && db.contents[item.contentId].convId == db.turns[key.turnId].convId
    requires key.attemptId.Some? ==>
               key.attemptId.value in db.attempts && db.attempts[key.attemptId.value].turnId == key.turnId
    ensures RowsInv(env, AddItem(db, key, item)) && Evolves(db, AddItem(db, key, item))
  {
    hide RowsInv, BranchOk, TurnOk, AttemptOk, ContentRowOk, BindingOk, ChildOk, BranchHash;
    QuietKeeps(env, db, AddItem(db, key, item));
  }

  /** The next number of a branch: one past a dense numbering. */
  lemma NextSeqFits(db: Db, branchId: Text)
    requires TurnsDense(db)
    ensures forall k: nat, t | TurnAt(db, branchId, k, t) :: k < NextSeq(db, branchId)
    ensures forall k: nat | 1 <= k < NextSeq(db, branchId) :: Placed(db, branchId, k)
  {
    var s := SeqsOf(db, branchId);
    forall k: nat, t | TurnAt(db, branchId, k, t) ensures k < NextSeq(db, branchId) { assert k in s; }
    if s != {} {
      var t :| t in db.turns && db.turns[t].branchId == branchId && db.turns[t].turnSeq == MaxOf(s);
      forall k: nat | 1 <= k < NextSeq(db, branchId) ensures Placed(db, branchId, k) {
        assert Placed(db, db.turns[t].branchId, k);
      }
    }
  }

  ghost predicate FreshTurn(db: Db, turnId: Text, turn: Turn)
  {
    && turnId !in db.turns && turn.currentId !in db.attempts && turn.turnSeq == NextSeq(db, turn.branchId)
    && turn.branchId in db.branches && db.branches[turn.branchId].convId == turn.convId
    && turn.configId in db.contents && db.contents[turn.configId].convId == turn.convId
    && (forall t :: !HasClientTurn(db, turn.convId, turn.clientTurnId, t))
  }

  lemma AddTurnDense(db: Db, turnId: Text, turn: Turn)
    requires TurnsDense(db) && ClientTurnsUnique(db) && FreshTurn(db, turnId, turn)
    ensures TurnsDense(AddTurn(db, turnId, turn)) && ClientTurnsUnique(AddTurn(db, turnId, turn))
  {
    var db' := AddTurn(db, turnId, turn);
    NextSeqFits(db, turn.branchId);
    hide NextSeq;
    forall b, k: nat, t ensures TurnAt(db', b, k, t)
      <==> TurnAt(db, b, k, t) || (t == turnId && b == turn.branchId && k == turn.turnSeq) {}
    forall c, k, t ensures HasClientTurn(db', c, k, t)
      <==> HasClientTurn(db, c, k, t) || (t == turnId && c == turn.convId && k == turn.clientTurnId) {}
    forall t, k: nat | t in db'.turns && 1 <= k <= db'.turns[t].turnSeq ensures Placed(db', db'.turns[t].branchId, k) {
      if t == turnId && k == turn.turnSeq {
        assert TurnAt(db', turn.branchId, k, turnId);
      } else {
        assert Placed(db, db'.turns[t].branchId, k);
        var u :| TurnAt(db, db'.turns[t].branchId, k, u);
        assert TurnAt(db', db'.turns[t].branchId, k, u);
      }
    }
  }

  lemma AddTurnAttempts(env: Env, db: Db, turnId: Text, turn: Turn)
    requires AttemptsUnique(db) && turnId !in db.turns && turn.currentId !in db.attempts
    requires forall a | a in db.attempts :: AttemptOk(db, a)
    ensures AttemptsUnique(AddTurn(db, turnId, turn))
  {
    var db' := AddTurn(db, turnId, turn);
    forall t, n: nat, a
      ensures HasSeq(db', t, n, a) <==> HasSeq(db, t, n, a) || (a == turn.currentId && t == turnId && n == 1)
    {
    }
    forall a | a in db.attempts ensures db.attempts[a].turnId != turnId { assert AttemptOk(db, a); }
  }

  lemma AddTurnEvolves(db: Db, turnId: Text, turn: Turn)
    requires turnId !in db.turns && turn.currentId !in db.attempts
    ensures Evolves(db, AddTurn(db, turnId, turn))
  {
  }

  lemma AddTurnRows(env: Env, db: Db, turnId: Text, turn: Turn)
    requires FreshTurn(db, turnId, turn)
    ensures NewRowsOk(env, db, AddTurn(db, turnId, turn))
  {
    hide NextSeq;
    assert HasSeq(AddTurn(db, turnId, turn), turnId, 1, turn.currentId);
  }

  lemma AddTurnKeeps(env: Env, db: Db, turnId: Text, turn: Turn)
    requires RowsInv(env, db) && FreshTurn(db, turnId, turn)
    ensures RowsInv(env, AddTurn(db, turnId, turn)) && Evolves(db, AddTurn(db, turnId, turn))
  {
    hide TurnsDense, ClientTurnsUnique, AttemptsUnique, ForksBound, OneRoot, AttemptOk, BranchOk, TurnOk, ItemOk,
         ContentRowOk, BindingOk, NewRowsOk, Evolves, NextSeq;
    var db' := AddTurn(db, turnId, turn);
    AddTurnEvolves(db, turnId, turn);
    AddTurnRows(env, db, turnId, turn);
    AddTurnDense(db, turnId, turn);
    AddTurnAttempts(env, db, turnId, turn);
    RootsKept(db, db');
    SameRoots(db, db');
    ForksKept(db, db');
    RowsFromNew(env, db, db');
  }

  lemma AddForkKeeps(env: Env, db: Db, id: Text, b: Branch, key: BindingKey)
    requires RowsInv(env, db) && id !in db.branches && key !in db.bindings && b.convId in db.convs
             && key.convId == b.convId
    requires b.pin.Some? && PinOk(db, b.convId, b.pin.value)
    ensures var db' := AddFork(db, id, b, key, BranchHash(env, b));
            RowsInv(env, db') && Evolves(db, db')
  {
    hide TurnsDense, ClientTurnsUnique, AttemptsUnique, ForksBound, OneRoot, AttemptOk, BranchOk, TurnOk, ItemOk,
         ContentRowOk, BindingOk, NewRowsOk, Evolves, BranchHash, PinOk;
    var db' := AddFork(db, id, b, key, BranchHash(env, b));
    AddForkEvolves(env, db, id, b, key);
    AddForkRows(env, db, id, b, key);
    AddForkRoots(env, db, id, b, key);
    AddForkBound(env, db, id, b, key);
    TurnsKept(db, db');
    AttemptsKept(db, db');
    RowsFromNew(env, db, db');
  }

  lemma AddForkEvolves(env: Env, db: Db, id: Text, b: Branch, key: BindingKey)
    requires id !in db.branches && key !in db.bindings && b.pin.Some?
    ensures Evolves(db, AddFork(db, id, b, key, BranchHash(env, b)))
  {
    hide BranchHash;
  }

  lemma AddForkRows(env: Env, db: Db, id: Text, b: Branch, key: BindingKey)
    requires id !in db.branches && key !in db.bindings && b.convId in db.convs && key.convId == b.convId
    requires b.pin.Some? && PinOk(db, b.convId, b.pin.value)
    ensures NewRowsOk(env, db, AddFork(db, id, b, key, BranchHash(env, b)))
  {
    hide BranchHash, Evolves, PinOk, BranchOk, BindingOk, TurnOk, AttemptOk, ItemOk, ContentRowOk;
    AddForkBranch(env, db, id, b, key);
    AddForkBinding(env, db, id, b, key);
  }

  lemma AddForkBranch(env: Env, db: Db, id: Text, b: Branch, key: BindingKey)
    requires id !in db.branches && key !in db.bindings && b.convId in db.convs
    requires b.pin.Some? && PinOk(db, b.convId, b.pin.value)
    ensures var db' := AddFork(db, id, b, key, BranchHash(env, b)); id in db'.branches && BranchOk(db', id)
  {
    hide BranchHash, Evolves, PinOk;
    AddForkEvolves(env, db, id, b, key);
    PinPersists(db, AddFork(db, id, b, key, BranchHash(env, b)), b.convId, b.pin.value);
  }

  lemma AddForkBinding(env: Env, db: Db, id: Text, b: Branch, key: BindingKey)
    requires key.convId == b.convId && b.pin.Some?
    ensures var db' := AddFork(db, id, b, key, BranchHash(env, b)); key in db'.bindings && BindingOk(env, db', key)
  {
    hide BranchHash;
  }

  lemma AddForkRoots(env: Env, db: Db, id: Text, b: Branch, key: BindingKey)
    requires OneRoot(db) && id !in db.branches && b.pin.Some?
    ensures OneRoot(AddFork(db, id, b, key, BranchHash(env, b)))
  {
    hide BranchHash;
    var db' := AddFork(db, id, b, key, BranchHash(env, b));
    forall c, d ensures RootAt(db', c, d) <==> RootAt(db, c, d) {}
    hide RootAt;
    SameRoots(db, db');
  }

  lemma AddForkBound(env: Env, db: Db, id: Text, b: Branch, key: BindingKey)
    requires ForksBound(db) && id !in db.branches && key !in db.bindings && b.pin.Some?
    requires forall k | k in db.bindings :: BindingOk(env, db, k)
    ensures ForksBound(AddFork(db, id, b, key, BranchHash(env, b)))
  {
    hide BranchHash;
    var db' := AddFork(db, id, b, key, BranchHash(env, b));
    forall k, i ensures BoundTo(db', k, i) <==> BoundTo(db, k, i) || (k == key && i == id) {}
    forall k | k in db.bindings ensures db.bindings[k].branchId != id { assert BindingOk(env, db, k); }
    forall i | i in db'.branches && db'.branches[i].pin.Some? ensures exists k :: BoundTo(db', k, i) {
      if i == id { assert BoundTo(db', key, id); }
      else {
        var k :| BoundTo(db, k, i);
        assert BoundTo(db', k, i);
      }
    }
  }

  // ---------------------------------------------------------------------------------------
  // Transactions
  // ---------------------------------------------------------------------------------------

  lemma RowsBranch(env: Env, db: Db, id: Text)
    requires RowsInv(env, db) && id in db.branches
    ensures BranchOk(db, id) && db.branches[id].convId in db.convs
  {
  }

  lemma SendKeeps(env: Env, db: Db, scope: Scope, convId: Text, q: SendRequest, draws: Draws)
    requires RowsInv(env, db) && SendTx(env, db, scope, convId, q, draws).SendCommitted?
             && PayloadOk(Document(q.native))
    ensures var r := SendTx(env, db, scope, convId, q, draws).db;
            RowsInv(env, r) && Evolves(db, r) && r.branches == db.branches
  {
    hide RowsInv, Evolves, NextSeq, TurnOk, ItemOk, ContentRowOk, PayloadOk;
    var conv, branchId := Lower(convId), Lower(q.branchId);
    var turn := Turn(conv, branchId, Lower(q.clientTurnId), NextSeq(db, branchId), draws(2), draws(0));
    var db1 := AddContent(db, draws(0), conv, Document(q.native));
    var db2 := AddTurn(db1, draws(1), turn);
    AddContentKeeps(env, db, draws(0), conv, Document(q.native));
    SameNextSeq(db, db1, branchId);
    assert forall t ::
        HasClientTurn(db1, conv, turn.clientTurnId, t) <==> HasClientTurn(db, conv, turn.clientTurnId, t);
    AddTurnKeeps(env, db1, draws(1), turn);
    EvolvesTransitive(db, db1, db2);
    var key, item := ItemKey(draws(1), None, INPUT_ITEM_SEQ), Item(InputItemType(), draws(0));
    NoItems(env, db, draws(1));
    AddItemKeeps(env, db2, key, item);
    EvolvesTransitive(db, db2, AddItem(db2, key, item));
  }

  lemma SameNextSeq(db: Db, db': Db, branchId: Text)
    requires db'.turns == db.turns
    ensures NextSeq(db', branchId) == NextSeq(db, branchId)
  {
    assert SeqsOf(db', branchId) == SeqsOf(db, branchId);
  }

  /** A turn that does not exist has no items. */
  lemma NoItems(env: Env, db: Db, turnId: Text)
    requires RowsInv(env, db) && turnId !in db.turns
    ensures forall a, k: nat :: ItemKey(turnId, a, k) !in db.items
  {
    hide TurnsDense, ClientTurnsUnique, AttemptsUnique, ForksBound, OneRoot, AttemptOk, BranchOk, TurnOk,
         ContentRowOk, BindingOk;
    forall key | key in db.items ensures key.turnId != turnId { assert ItemOk(db, key); }
  }

  /** The copied items keep the invariant, and are all the child turn has. */
  lemma {:induction false} CopyItemsKeeps(env: Env, db: Db, convId: Text, source: Text, child: Text, seqs: seq<nat>,
                                          draws: Draws, k: nat)
    requires RowsInv(env, db) && child in db.turns && db.turns[child].convId == convId && convId in db.convs
    requires forall i | 0 <= i < |seqs| :: ItemKey(child, None, seqs[i]) !in db.items
    requires forall i, j | 0 <= i < j < |seqs| :: seqs[i] < seqs[j]
    requires CopyItems(db, convId, source, child, seqs, draws, k).Minted?
    ensures var r := CopyItems(db, convId, source, child, seqs, draws, k).db;
            && RowsInv(env, r) && Evolves(db, r) && r.branches == db.branches
            && r.turns == db.turns && r.attempts == db.attempts && r.bindings == db.bindings
    decreases |seqs|
  {
    hide RowsInv, Evolves;
    if |seqs| == 0 {
      EvolvesReflexive(db);
    } else {
      var key := ItemKey(source, None, seqs[0]);
      assert forall i | 0 <= i < |seqs[1..]| :: seqs[1..][i] == seqs[i + 1];
      if key !in db.items {
        CopyItemsKeeps(env, db, convId, source, child, seqs[1..], draws, k);
      } else {
        var payload := db.contents[db.items[key].contentId].payload;
        var db1 := AddContent(db, draws(k), convId, payload);
        var item := Item(db.items[key].itemType, draws(k));
        var db2 := AddItem(db1, ItemKey(child, None, seqs[0]), item);
        ContentRow(env, db, db.items[key].contentId);
        AddContentKeeps(env, db, draws(k), convId, payload);
        AddItemKeeps(env, db1, ItemKey(child, None, seqs[0]), item);
        EvolvesTransitive(db, db1, db2);
        CopyItemsKeeps(env, db2, convId, source, child, seqs[1..], draws, k + 1);
        EvolvesTransitive(db, db2, CopyItems(db2, convId, source, child, seqs[1..], draws, k + 1).db);
      }
    }
  }

  lemma ContentRow(env: Env, db: Db, id: Text)
    requires RowsInv(env, db) && id in db.contents
    ensures PayloadOk(db.contents[id].payload)
  {
    hide OneRoot, TurnsDense, ClientTurnsUnique, AttemptsUnique, ForksBound, BranchOk, ItemOk, BindingOk, TurnOk,
         AttemptOk, PayloadOk;
    assert ContentRowOk(db, id);
  }

  lemma FirstSeq(env: Env, db: Db, branchId: Text)
    requires RowsInv(env, db) && forall t | t in db.turns :: db.turns[t].branchId != branchId
    ensures NextSeq(db, branchId) == 1
  {
    assert SeqsOf(db, branchId) == {};
  }

  /** Minting the regeneration child of a branch that has no turn yet. */
  lemma MintKeeps(env: Env, db: Db, id: Text, b: Branch, draws: Draws)
    requires RowsInv(env, db) && id in db.branches && db.branches[id] == b && b.pin.Some?
    requires forall t | t in db.turns :: db.turns[t].branchId != id
    requires MintChild(db, id, b, draws).Minted?
    ensures var r := MintChild(db, id, b, draws).db;
            && RowsInv(env, r) && Evolves(db, r) && r.branches == db.branches
            && IsChild(r, id, draws(2), draws(3))
  {
    hide RowsInv, Evolves, NextSeq, CopyItems, AddTurn, AddContent;
    RowsBranch(env, db, id);
    var source := b.pin.value.turnId;
    var payload := db.contents[db.turns[source].configId].payload;
    var turn := Turn(b.convId, id, draws(4), 1, draws(3), draws(1));
    var db2 := AddTurn(AddContent(db, draws(1), b.convId, payload), draws(2), turn);
    ContentRow(env, db, db.turns[source].configId);
    MintTurnKeeps(env, db, id, payload, turn, draws);
    NoItems(env, db, draws(2));
    OwnedAre(db, source);
    MintTurnFrame(db, payload, turn, draws);
    CopyItemsKeeps(env, db2, b.convId, source, draws(2), OwnedSeqs(db, source), draws, 5);
    EvolvesTransitive(db, db2, MintChild(db, id, b, draws).db);
  }

  /** The child turn over its configuration row, before the items are copied. */
  lemma MintTurnKeeps(env: Env, db: Db, id: Text, payload: Payload, turn: Turn, draws: Draws)
    requires RowsInv(env, db) && id in db.branches && PayloadOk(payload)
    requires forall t | t in db.turns :: db.turns[t].branchId != id
    requires turn == Turn(db.branches[id].convId, id, draws(4), 1, draws(3), draws(1)) && turn.convId in db.convs
    requires draws(1) !in db.contents && draws(2) !in db.turns && draws(3) !in db.attempts
    requires forall t :: !HasClientTurn(db, turn.convId, draws(4), t)
    ensures var db2 := AddTurn(AddContent(db, draws(1), turn.convId, payload), draws(2), turn);
            RowsInv(env, db2) && Evolves(db, db2)
  {
    hide RowsInv, Evolves, NextSeq;
    var db1 := AddContent(db, draws(1), turn.convId, payload);
    FirstSeq(env, db, id);
    SameNextSeq(db, db1, id);
    AddContentKeeps(env, db, draws(1), turn.convId, payload);
    assert forall t :: HasClientTurn(db1, turn.convId, draws(4), t) <==> HasClientTurn(db, turn.convId, draws(4), t);
    AddTurnKeeps(env, db1, draws(2), turn);
    EvolvesTransitive(db, db1, AddTurn(db1, draws(2), turn));
  }

  lemma MintTurnFrame(db: Db, payload: Payload, turn: Turn, draws: Draws)
    ensures var db2 := AddTurn(AddContent(db, draws(1), turn.convId, payload), draws(2), turn);
            && db2.convs == db.convs && db2.branches == db.branches && db2.items == db.items
            && db2.turns == db.turns[draws(2) := turn]
            && db2.attempts == db.attempts[turn.currentId := Attempt(turn.convId, turn.branchId, draws(2), 1, Accepted)]
  {
  }

  lemma PlanPins(db: Db, scope: Scope, convId: Text, q: ForkRequest, now: Text)
    requires PlanFork(db, scope, convId, q, now).Plan?
    ensures var b := PlanFork(db, scope, convId, q, now).branch;
            && b.pin.Some? && b.convId == Lower(convId) && b.convId in db.convs && PinOk(db, b.convId, b.pin.value)
            && b.pin.value.mode == q.mode
  {
  }

  lemma NoTurnsYet(env: Env, db: Db, id: Text)
    requires RowsInv(env, db) && id !in db.branches
    ensures forall t | t in db.turns :: db.turns[t].branchId != id
  {
    hide TurnsDense, ClientTurnsUnique, AttemptsUnique, ForksBound, OneRoot, AttemptOk, BranchOk, ItemOk,
         ContentRowOk, BindingOk;
    forall t | t in db.turns ensures db.turns[t].branchId != id { assert TurnOk(db, t); }
  }

  /** A committed fork keeps the invariant; the child it reports is the branch's child. */
  lemma ForkKeeps(env: Env, db: Db, scope: Scope, convId: Text, q: ForkRequest, draws: Draws, now: Text)
    requires Inv(env, db) && ForkTx(env, db, scope, convId, q, draws, now).ForkCommitted?
    ensures var r := ForkTx(env, db, scope, convId, q, draws, now);
            && Inv(env, r.db) && Evolves(db, r.db)
            && (q.mode.BeforeAttemptOutput? ==> IsChild(r.db, draws(0), draws(2), draws(3)))
  {
    hide RowsInv, Evolves, PlanFork, BranchHash, MintChild, IsChild, PinOk;
    PlanPins(db, scope, convId, q, now);
    var b := PlanFork(db, scope, convId, q, now).branch;
    var key := BindingKey(Lower(convId), Lower(q.clientForkId));
    var db1 := AddFork(db, draws(0), b, key, BranchHash(env, b));
    NoTurnsYet(env, db, draws(0));
    AddForkKeeps(env, db, draws(0), b, key);
    if q.mode.BeforeAttemptOutput? {
      MintKeeps(env, db1, draws(0), b, draws);
      EvolvesTransitive(db, db1, MintChild(db1, draws(0), b, draws).db);
    }
    ChildrenKept(env, db, ForkTx(env, db, scope, convId, q, draws, now).db);
  }

  /** Two items of one type with one payload, the copy in a content row of its own. */
  ghost predicate CopiedItem(db: Db, r: Db, convId: Text, from: ItemKey, to: ItemKey)
  {
    && from in db.items && to in r.items && r.items[to].itemType == db.items[from].itemType
    && db.items[from].contentId in db.contents && r.items[to].contentId !in db.contents
    && r.items[to].contentId in r.contents
    && r.contents[r.items[to].contentId] == Content(convId, db.contents[db.items[from].contentId].payload, true)
  }

  /** What copying a list of items leaves behind. */
  ghost predicate Copied(db: Db, r: Db, convId: Text, source: Text, child: Text, seqs: seq<nat>)
  {
    && (forall key | key in db.items :: key in r.items && r.items[key] == db.items[key])
    && (forall key | key in r.items && key !in db.items ::
          key.turnId == child && key.attemptId.None? && key.itemSeq in seqs)
    && (forall n | n in seqs && ItemKey(source, None, n) in db.items ::
          CopiedItem(db, r, convId, ItemKey(source, None, n), ItemKey(child, None, n)))
    && (forall c | c in db.contents :: c in r.contents && r.contents[c] == db.contents[c])
  }

  ghost predicate ItemsStored(db: Db)
  {
    forall key | key in db.items :: db.items[key].contentId in db.contents
  }

  lemma {:induction false} CopyItemsCopies(db: Db, convId: Text, source: Text, child: Text, seqs: seq<nat>,
                                           draws: Draws, k: nat)
    requires CopyItems(db, convId, source, child, seqs, draws, k).Minted? && source != child && ItemsStored(db)
    requires forall i | 0 <= i < |seqs| :: ItemKey(child, None, seqs[i]) !in db.items
    requires forall i, j | 0 <= i < j < |seqs| :: seqs[i] < seqs[j]
    ensures Copied(db, CopyItems(db, convId, source, child, seqs, draws, k).db, convId, source, child, seqs)
    decreases |seqs|
  {
    if |seqs| > 0 {
      var rest := seqs[1..];
      var r := CopyItems(db, convId, source, child, seqs, draws, k).db;
      assert forall i | 0 <= i < |rest| :: rest[i] == seqs[i + 1];
      assert forall n :: n in seqs <==> n == seqs[0] || n in rest;
      var key := ItemKey(source, None, seqs[0]);
      if key !in db.items {
        CopyItemsCopies(db, convId, source, child, rest, draws, k);
      } else {
        var db1 := AddContent(db, draws(k), convId, db.contents[db.items[key].contentId].payload);
        var db2 := AddItem(db1, ItemKey(child, None, seqs[0]), Item(db.items[key].itemType, draws(k)));
        CopyItemsCopies(db2, convId, source, child, rest, draws, k + 1);
        CopyFirst(db, db2, r, convId, source, child, seqs, draws(k));
      }
    }
  }

  lemma CopyFirst(db: Db, db2: Db, r: Db, convId: Text, source: Text, child: Text, seqs: seq<nat>, id: Text)
    requires |seqs| > 0 && source != child && id !in db.contents && ItemKey(source, None, seqs[0]) in db.items
    requires ItemsStored(db)
    requires forall i, j | 0 <= i < j < |seqs| :: seqs[i] < seqs[j]
    requires forall n :: n in seqs <==> n == seqs[0] || n in seqs[1..]
    requires ItemKey(child, None, seqs[0]) !in db.items
    requires var c := db.items[ItemKey(source, None, seqs[0])].contentId;
             c in db.contents
             && db2 == AddItem(AddContent(db, id, convId, db.contents[c].payload), ItemKey(child, None, seqs[0]),
                               Item(db.items[ItemKey(source, None, seqs[0])].itemType, id))
    requires Copied(db2, r, convId, source, child, seqs[1..])
    ensures Copied(db, r, convId, source, child, seqs)
  {
    hide CopiedItem;
    forall n | n in seqs && ItemKey(source, None, n) in db.items
      ensures CopiedItem(db, r, convId, ItemKey(source, None, n), ItemKey(child, None, n))
    {
      if n == seqs[0] {
        FirstCopied(db, db2, r, convId, source, child, n, id);
      } else {
        LaterCopied(db, db2, r, convId, source, child, seqs[0], n, id);
      }
    }
    forall key | key in r.items && key !in db.items
      ensures key.turnId == child && key.attemptId.None? && key.itemSeq in seqs
    {
      if key in db2.items { assert key == ItemKey(child, None, seqs[0]); }
    }
  }

  lemma FirstCopied(db: Db, db2: Db, r: Db, convId: Text, source: Text, child: Text, n: nat, id: Text)
    requires ItemKey(source, None, n) in db.items && id !in db.contents
    requires var c := db.items[ItemKey(source, None, n)].contentId;
             c in db.contents
             && db2 == AddItem(AddContent(db, id, convId, db.contents[c].payload), ItemKey(child, None, n),
                               Item(db.items[ItemKey(source, None, n)].itemType, id))
    requires forall key | key in db2.items :: key in r.items && r.items[key] == db2.items[key]
    requires forall c | c in db2.contents :: c in r.contents && r.contents[c] == db2.contents[c]
    ensures CopiedItem(db, r, convId, ItemKey(source, None, n), ItemKey(child, None, n))
  {
  }

  lemma LaterCopied(db: Db, db2: Db, r: Db, convId: Text, source: Text, child: Text, first: nat, n: nat, id: Text)
    requires ItemKey(source, None, n) in db.items && n != first && source != child && id !in db.contents
    requires forall key | key in db.items && key.turnId != child :: key in db2.items && db2.items[key] == db.items[key]
    requires forall c | c in db.contents :: c in db2.contents && db2.contents[c] == db.contents[c]
    requires forall c | c in db2.contents && c !in db.contents :: c == id
    requires CopiedItem(db2, r, convId, ItemKey(source, None, n), ItemKey(child, None, n))
    requires db.items[ItemKey(source, None, n)].contentId in db.contents
    ensures CopiedItem(db, r, convId, ItemKey(source, None, n), ItemKey(child, None, n))
  {
  }

  /** The regeneration child's first turn is a copy of the pinned turn's input: its request config and
      its own items, number for number, type for type, payload for payload, each in a content row of
      its own; none of the source's attempt output is copied. */
  ghost predicate CopiesInput(db: Db, r: Db, convId: Text, source: Text, child: Text)
  {
    && source in db.turns && child in r.turns && child !in db.turns
    && db.turns[source].configId in db.contents && r.turns[child].configId !in db.contents
    && r.turns[child].configId in r.contents
    && r.contents[r.turns[child].configId] == Content(convId, db.contents[db.turns[source].configId].payload, true)
    && (forall n: nat :: ItemKey(child, None, n) in r.items <==> ItemKey(source, None, n) in db.items)
    && (forall n: nat | ItemKey(source, None, n) in db.items ::
          CopiedItem(db, r, convId, ItemKey(source, None, n), ItemKey(child, None, n)))
    && (forall a, n: nat :: ItemKey(child, Some(a), n) !in r.items)
  }

  lemma MintCopies(env: Env, db: Db, id: Text, b: Branch, draws: Draws)
    requires RowsInv(env, db) && b.pin.Some? && MintChild(db, id, b, draws).Minted?
    ensures CopiesInput(db, MintChild(db, id, b, draws).db, b.convId, b.pin.value.turnId, draws(2))
  {
    hide RowsInv, CopyItems, CopiedItem, OwnedSeqs;
    var source, child := b.pin.value.turnId, draws(2);
    var payload := db.contents[db.turns[source].configId].payload;
    var db1 := AddContent(db, draws(1), b.convId, payload);
    var db2 := AddTurn(db1, child, Turn(b.convId, id, draws(4), 1, draws(3), draws(1)));
    var seqs := OwnedSeqs(db, source);
    var r := CopyItems(db2, b.convId, source, child, seqs, draws, 5).db;
    NoItems(env, db, child);
    Stored(env, db);
    OwnedAre(db, source);
    CopyItemsCopies(db2, b.convId, source, child, seqs, draws, 5);
    CopyItemsTurns(db2, b.convId, source, child, seqs, draws, 5);
    forall n: nat | ItemKey(source, None, n) in db.items
      ensures CopiedItem(db, r, b.convId, ItemKey(source, None, n), ItemKey(child, None, n))
    {
      assert n in seqs;
      StillCopied(db, db2, r, b.convId, ItemKey(source, None, n), ItemKey(child, None, n));
    }
    forall n: nat | ItemKey(child, None, n) in r.items ensures ItemKey(source, None, n) in db.items {
      assert n in seqs;
    }
    forall n: nat | ItemKey(source, None, n) in db.items ensures ItemKey(child, None, n) in r.items {
      ItemThere(db, r, b.convId, ItemKey(source, None, n), ItemKey(child, None, n));
    }
  }

  lemma ItemThere(db: Db, r: Db, convId: Text, from: ItemKey, to: ItemKey)
    requires CopiedItem(db, r, convId, from, to)
    ensures to in r.items
  {
  }

  lemma Stored(env: Env, db: Db)
    requires RowsInv(env, db)
    ensures ItemsStored(db)
  {
    hide TurnsDense, ClientTurnsUnique, AttemptsUnique, ForksBound, OneRoot, AttemptOk, BranchOk, TurnOk,
         ContentRowOk, BindingOk;
    forall key | key in db.items ensures db.items[key].contentId in db.contents { assert ItemOk(db, key); }
  }

  lemma OwnedAre(db: Db, turnId: Text)
    ensures forall n :: n in OwnedSeqs(db, turnId) <==> ItemKey(turnId, None, n) in db.items
    ensures var s := OwnedSeqs(db, turnId); forall i, j | 0 <= i < j < |s| :: s[i] < s[j]
  {
    AscendingSorted(set k | k in db.items && k.turnId == turnId && k.attemptId.None? :: k.itemSeq);
    forall n: nat | ItemKey(turnId, None, n) in db.items ensures n in OwnedSeqs(db, turnId) {
      assert ItemKey(turnId, None, n).itemSeq == n;
    }
  }

  lemma StillCopied(db: Db, db2: Db, r: Db, convId: Text, from: ItemKey, to: ItemKey)
    requires CopiedItem(db2, r, convId, from, to) && db2.items == db.items && ItemsStored(db)
    requires forall c | c in db.contents :: c in db2.contents && db2.contents[c] == db.contents[c]
    ensures CopiedItem(db, r, convId, from, to)
  {
  }

  lemma {:induction false} CopyItemsTurns(db: Db, convId: Text, source: Text, child: Text, seqs: seq<nat>,
                                          draws: Draws, k: nat)
    requires CopyItems(db, convId, source, child, seqs, draws, k).Minted?
    ensures CopyItems(db, convId, source, child, seqs, draws, k).db.turns == db.turns
    decreases |seqs|
  {
    if |seqs| > 0 {
      var key := ItemKey(source, None, seqs[0]);
      if key !in db.items {
        CopyItemsTurns(db, convId, source, child, seqs[1..], draws, k);
      } else {
        var db1 := AddContent(db, draws(k), convId, db.contents[db.items[key].contentId].payload);
        var db2 := AddItem(db1, ItemKey(child, None, seqs[0]), Item(db.items[key].itemType, draws(k)));
        CopyItemsTurns(db2, convId, source, child, seqs[1..], draws, k + 1);
      }
    }
  }

  // ---------------------------------------------------------------------------------------
  // The other steps
  // ---------------------------------------------------------------------------------------

  lemma CreateKeeps(env: Env, db: Db, scope: Scope, q: CreateRequest, draws: Draws, now: Text)
    requires Inv(env, db) && Create(db, scope, q, draws, now).Some?
    ensures Inv(env, Create(db, scope, q, draws, now).value) && Evolves(db, Create(db, scope, q, draws, now).value)
  {
    var db' := Create(db, scope, q, draws, now).value;
    CreateRows(env, db, scope, q, draws, now);
    hide RowsInv, OneRoot, TurnsDense, ClientTurnsUnique, AttemptsUnique, ForksBound, NewRowsOk, Evolves,
         IsAdmissibleNewIdentity;
    RowsGlobals(env, db);
    TurnsKept(db, db');
    AttemptsKept(db, db');
    CreateForks(db, scope, q, draws, now);
    CreateRoots(env, db, scope, q, draws, now);
    RowsFromNew(env, db, db');
    ChildrenKept(env, db, db');
  }

  lemma CreateRows(env: Env, db: Db, scope: Scope, q: CreateRequest, draws: Draws, now: Text)
    requires Create(db, scope, q, draws, now).Some?
    ensures Evolves(db, Create(db, scope, q, draws, now).value)
    ensures NewRowsOk(env, db, Create(db, scope, q, draws, now).value)
  {
    hide IsAdmissibleNewIdentity;
  }

  lemma CreateForks(db: Db, scope: Scope, q: CreateRequest, draws: Draws, now: Text)
    requires Create(db, scope, q, draws, now).Some? && ForksBound(db)
    ensures ForksBound(Create(db, scope, q, draws, now).value)
  {
    hide IsAdmissibleNewIdentity;
    var db' := Create(db, scope, q, draws, now).value;
    forall k, id ensures BoundTo(db', k, id) <==> BoundTo(db, k, id) {}
    forall id | id in db'.branches && db'.branches[id].pin.Some? ensures exists key :: BoundTo(db', key, id) {
      var key :| BoundTo(db, key, id);
    }
  }

  lemma CreateRoots(env: Env, db: Db, scope: Scope, q: CreateRequest, draws: Draws, now: Text)
    requires Create(db, scope, q, draws, now).Some? && RowsInv(env, db)
    ensures OneRoot(Create(db, scope, q, draws, now).value)
  {
    hide IsAdmissibleNewIdentity, TurnsDense, ClientTurnsUnique, AttemptsUnique, ForksBound, AttemptOk, TurnOk, ItemOk,
         ContentRowOk, BindingOk;
    var db' := Create(db, scope, q, draws, now).value;
    forall b | b in db.branches ensures db.branches[b].convId in db.convs { assert BranchOk(db, b); }
    forall c, b ensures RootAt(db', c, b) <==> RootAt(db, c, b) || (c == draws(0) && b == draws(1)) {}
    forall c | c in db'.convs ensures exists b :: RootAt(db', c, b) {
      if c == draws(0) { assert RootAt(db', c, draws(1)); }
      else {
        var b :| RootAt(db, c, b);
        assert RootAt(db', c, b);
      }
    }
  }

  lemma ConvEvolves(db: Db, convId: Text, c: Conv)
    requires convId in db.convs
    requires c.(status := db.convs[convId].status, title := db.convs[convId].title) == db.convs[convId]
    requires StatusLater(db.convs[convId].status, c.status)
    ensures var db' := db.(convs := db.convs[convId := c]);
            Evolves(db, db') && db'.convs.Keys == db.convs.Keys
  {
    hide StatusLater;
    assert forall s :: StatusLater(s, s) by { StatusSame(); }
  }

  lemma StatusSame()
    ensures forall s :: StatusLater(s, s)
  {
  }

  /** A conversation's row changes within its lifecycle. */
  lemma ConvKeeps(env: Env, db: Db, convId: Text, c: Conv)
    requires Inv(env, db) && convId in db.convs
    requires c.(status := db.convs[convId].status, title := db.convs[convId].title) == db.convs[convId]
    requires StatusLater(db.convs[convId].status, c.status)
    ensures var db' := db.(convs := db.convs[convId := c]); Inv(env, db') && Evolves(db, db')
  {
    hide RowsInv, BranchOk, TurnOk, AttemptOk, ItemOk, ContentRowOk, BindingOk, ChildOk, BranchHash, Evolves,
         StatusLater;
    var db' := db.(convs := db.convs[convId := c]);
    ConvEvolves(db, convId, c);
    QuietKeeps(env, db, db');
    ChildrenKept(env, db, db');
  }

  lemma MoveAttemptKeeps(env: Env, db: Db, id: Text, state: AttemptState)
    requires Inv(env, db) && id in db.attempts && AttemptEdge(db.attempts[id].state, state)
    ensures var db' := db.(attempts := db.attempts[id := db.attempts[id].(state := state)]);
            Inv(env, db') && Evolves(db, db')
  {
    hide RowsInv, NewRowsOk, Evolves, ChildOk;
    var db' := db.(attempts := db.attempts[id := db.attempts[id].(state := state)]);
    assert db'.attempts.Keys == db.attempts.Keys;
    MoveAttemptRows(env, db, id, state);
    QuietKeeps(env, db, db');
    ChildrenKept(env, db, db');
  }

  lemma MoveAttemptRows(env: Env, db: Db, id: Text, state: AttemptState)
    requires id in db.attempts && AttemptEdge(db.attempts[id].state, state)
    ensures var db' := db.(attempts := db.attempts[id := db.attempts[id].(state := state)]);
            NewRowsOk(env, db, db') && Evolves(db, db')
  {
    hide BranchOk, TurnOk, AttemptOk, ItemOk, ContentRowOk, BindingOk;
  }

  lemma MintAttemptKeeps(env: Env, db: Db, turnId: Text, id: Text, n: nat)
    requires Inv(env, db) && turnId in db.turns && id !in db.attempts && n >= 1
             && !(exists a :: HasSeq(db, turnId, n, a))
    ensures var db' := db.(attempts := db.attempts[id := Attempt(db.turns[turnId].convId, db.turns[turnId].branchId,
                                                                 turnId, n, Accepted)]);
            Inv(env, db') && Evolves(db, db')
  {
    hide RowsInv, OneRoot, TurnsDense, ClientTurnsUnique, AttemptsUnique, ForksBound, BranchOk, TurnOk, ItemOk,
         ContentRowOk, BindingOk, ChildOk;
    var db' := db.(attempts := db.attempts[id := Attempt(db.turns[turnId].convId, db.turns[turnId].branchId, turnId, n,
                                                         Accepted)]);
    RowsGlobals(env, db);
    TurnsKept(db, db');
    MintAttemptUnique(db, turnId, id, n);
    RootsKept(db, db');
    SameRoots(db, db');
    ForksKept(db, db');
    RowsFromNew(env, db, db');
    ChildrenKept(env, db, db');
  }

  lemma MintAttemptUnique(db: Db, turnId: Text, id: Text, n: nat)
    requires AttemptsUnique(db) && turnId in db.turns && id !in db.attempts && !(exists a :: HasSeq(db, turnId, n, a))
    ensures AttemptsUnique(db.(attempts := db.attempts[id :=
              Attempt(db.turns[turnId].convId, db.turns[turnId].branchId, turnId, n, Accepted)]))
  {
    var db' := db.(attempts := db.attempts[id := Attempt(db.turns[turnId].convId, db.turns[turnId].branchId, turnId, n,
                                                         Accepted)]);
    forall t, m: nat, a ensures HasSeq(db', t, m, a) <==> HasSeq(db, t, m, a) || (a == id && t == turnId && m == n) {}
  }

  lemma RepointTurn(db: Db, turnId: Text, id: Text)
    requires turnId in db.turns && TurnOk(db, turnId) && id in db.attempts && db.attempts[id].turnId == turnId
    ensures var db' := db.(turns := db.turns[turnId := db.turns[turnId].(currentId := id)]);
            TurnOk(db', turnId) && Evolves(db, db')
  {
    var db' := db.(turns := db.turns[turnId := db.turns[turnId].(currentId := id)]);
    var a :| HasSeq(db, turnId, 1, a);
    assert HasSeq(db', turnId, 1, a);
  }

  lemma TurnRow(env: Env, db: Db, id: Text)
    requires RowsInv(env, db) && id in db.turns
    ensures TurnOk(db, id)
  {
    hide OneRoot, TurnsDense, ClientTurnsUnique, AttemptsUnique, ForksBound, BranchOk, ItemOk, BindingOk,
         ContentRowOk, TurnOk;
  }

  lemma RepointKeeps(env: Env, db: Db, turnId: Text, id: Text)
    requires Inv(env, db) && turnId in db.turns && id in db.attempts && db.attempts[id].turnId == turnId
    ensures var db' := db.(turns := db.turns[turnId := db.turns[turnId].(currentId := id)]);
            Inv(env, db') && Evolves(db, db')
  {
    hide RowsInv, TurnOk, Evolves, ChildOk, BranchOk, ItemOk, BindingOk, ContentRowOk, AttemptOk;
    var db' := db.(turns := db.turns[turnId := db.turns[turnId].(currentId := id)]);
    TurnRow(env, db, turnId);
    RepointTurn(db, turnId, id);
    assert db'.turns.Keys == db.turns.Keys;
    QuietKeeps(env, db, db');
    ChildrenKept(env, db, db');
  }

  lemma OutputKeeps(env: Env, db: Db, key: ItemKey, itemType: Text, contentId: Text, payload: Payload)
    requires Inv(env, db) && key.turnId in db.turns && key.attemptId.Some? && key.attemptId.value in db.attempts
    requires db.attempts[key.attemptId.value].turnId == key.turnId && key !in db.items && contentId !in db.contents
    requires PayloadOk(payload)
    ensures var db' := AddItem(AddContent(db, contentId, db.turns[key.turnId].convId, payload), key,
                               Item(itemType, contentId));
            Inv(env, db') && Evolves(db, db')
  {
    hide RowsInv, Evolves;
    var conv := db.turns[key.turnId].convId;
    TurnConv(env, db, key.turnId);
    var db1 := AddContent(db, contentId, conv, payload);
    AddContentKeeps(env, db, contentId, conv, payload);
    AddItemKeeps(env, db1, key, Item(itemType, contentId));
    EvolvesTransitive(db, db1, AddItem(db1, key, Item(itemType, contentId)));
    ChildrenKept(env, db, AddItem(db1, key, Item(itemType, contentId)));
  }

  lemma TurnConv(env: Env, db: Db, id: Text)
    requires RowsInv(env, db) && id in db.turns
    ensures db.turns[id].convId in db.convs
  {
    hide OneRoot, TurnsDense, ClientTurnsUnique, AttemptsUnique, ForksBound, ItemOk, BindingOk, ContentRowOk;
    assert TurnOk(db, id);
    assert BranchOk(db, db.turns[id].branchId);
  }

  lemma ShredKeeps(env: Env, db: Db, id: Text)
    requires Inv(env, db) && id in db.contents
    ensures var db' := db.(contents := db.contents[id := db.contents[id].(active := false)]);
            Inv(env, db') && Evolves(db, db')
  {
    hide RowsInv, BranchOk, TurnOk, AttemptOk, ItemOk, ContentRowOk, BindingOk, ChildOk, BranchHash;
    var db' := db.(contents := db.contents[id := db.contents[id].(active := false)]);
    QuietKeeps(env, db, db');
    ChildrenKept(env, db, db');
  }

  /** Every step keeps the invariant and only moves the database forward. */
  lemma StepKeeps(env: Env, db: Db, step: Step)
    requires Inv(env, db) && Admissible(step)
    ensures Inv(env, Next(env, db, step)) && Evolves(db, Next(env, db, step))
  {
    EvolvesReflexive(db);
    hide Inv, Evolves, Create, Patch, SendTx, ForkTx;
    match step
    case CreateStep(scope, create, draws, now) =>
      if Create(db, scope, create, draws, now).Some? { CreateKeeps(env, db, scope, create, draws, now); }
    case PatchStep(scope, convId, title, archived) => PatchKeeps(env, db, scope, convId, title, archived);
    case SendStep(scope, convId, send, draws) =>
      if SendTx(env, db, scope, convId, send, draws).SendCommitted? {
        SendStepKeeps(env, db, scope, convId, send, draws);
      }
    case ForkStep(scope, convId, fork, draws, now) =>
      if ForkTx(env, db, scope, convId, fork, draws, now).ForkCommitted? {
        ForkKeeps(env, db, scope, convId, fork, draws, now);
      }
    case LifecycleStep(convId, status) =>
      if convId in db.convs && StatusEdge(db.convs[convId].status, status) {
        ConvKeeps(env, db, convId, db.convs[convId].(status := status));
      }
    case MoveAttempt(attemptId, state) =>
      if attemptId in db.attempts && AttemptEdge(db.attempts[attemptId].state, state) {
        MoveAttemptKeeps(env, db, attemptId, state);
      }
    case MintAttempt(turnId, attemptId, n) =>
      if turnId in db.turns && attemptId !in db.attempts && n >= 1 && !(exists a :: HasSeq(db, turnId, n, a)) {
        MintAttemptKeeps(env, db, turnId, attemptId, n);
      }
    case Repoint(turnId, attemptId) =>
      if turnId in db.turns && attemptId in db.attempts && db.attempts[attemptId].turnId == turnId {
        RepointKeeps(env, db, turnId, attemptId);
      }
    case AddOutput(key, itemType, contentId, payload) =>
      if key.turnId in db.turns && key.attemptId.Some? && key.attemptId.value in db.attempts
         && db.attempts[key.attemptId.value].turnId == key.turnId && key !in db.items && contentId !in db.contents {
        OutputKeeps(env, db, key, itemType, contentId, payload);
      }
    case Shred(contentId) =>
      if contentId in db.contents { ShredKeeps(env, db, contentId); }
  }

  lemma PatchKeeps(env: Env, db: Db, scope: Scope, convId: Text, title: Option<Text>, archived: Option<bool>)
    requires Inv(env, db)
    ensures var r := Patch(db, scope, convId, title, archived); r.Some? ==> Inv(env, r.value) && Evolves(db, r.value)
  {
    hide Inv, Evolves;
    var root := Root(db, scope, convId);
    if root.Some? && IsAddressable(root.value.status) {
      var r := Patch(db, scope, convId, title, archived);
      ConvKeeps(env, db, Lower(convId), r.value.convs[Lower(convId)]);
    }
  }

  lemma SendStepKeeps(env: Env, db: Db, scope: Scope, convId: Text, q: SendRequest, draws: Draws)
    requires Inv(env, db) && SendTx(env, db, scope, convId, q, draws).SendCommitted? && PayloadOk(Document(q.native))
    ensures var r := SendTx(env, db, scope, convId, q, draws).db; Inv(env, r) && Evolves(db, r)
  {
    hide RowsInv, Evolves, SendTx, ChildOk;
    SendKeeps(env, db, scope, convId, q, draws);
    ChildrenKept(env, db, SendTx(env, db, scope, convId, q, draws).db);
  }

  // ---------------------------------------------------------------------------------------
  // Runs
  // ---------------------------------------------------------------------------------------

  ghost predicate AllAdmissible(run: seq<Step>)
  {
    forall i | 0 <= i < |run| :: Admissible(run[i])
  }

  /** The state after a run from `db`. */
  ghost function Run(env: Env, db: Db, run: seq<Step>): (r: Db)
    requires Inv(env, db) && AllAdmissible(run)
    ensures Inv(env, r) && Evolves(db, r)
    decreases |run|
  {
    EvolvesReflexive(db);
    if |run| == 0 then db
    else
      var t := Run(env, db, run[..|run| - 1]);
      StepKeeps(env, t, run[|run| - 1]);
      EvolvesTransitive(db, t, Next(env, t, run[|run| - 1]));
      Next(env, t, run[|run| - 1])
  }

  /** A run is a run and one more step. */
  lemma RunLast(env: Env, db: Db, run: seq<Step>)
    requires Inv(env, db) && AllAdmissible(run) && |run| > 0
    ensures AllAdmissible(run[..|run| - 1]) && Admissible(run[|run| - 1])
    ensures Run(env, db, run) == Next(env, Run(env, db, run[..|run| - 1]), run[|run| - 1])
    ensures Evolves(Run(env, db, run[..|run| - 1]), Run(env, db, run))
  {
    hide Inv, Evolves, Next, Admissible;
    StepKeeps(env, Run(env, db, run[..|run| - 1]), run[|run| - 1]);
  }

  lemma EmptyInv(env: Env)
    ensures Inv(env, EMPTY)
  {
  }

  /** The state a run from the empty database reaches. */
  ghost function Reached(env: Env, run: seq<Step>): (r: Db)
    requires AllAdmissible(run)
    ensures Inv(env, r)
  {
    EmptyInv(env);
    Run(env, EMPTY, run)
  }
}
