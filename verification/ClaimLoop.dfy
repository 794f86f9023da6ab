/** The bounded claim loop: discover chains with unsealed captures, drain them in waves of concurrent
    drains, sweep the stale rows, tick after tick. */
module ClaimLoop {
  import opened Wrappers
  import opened Utf16
  import opened AuditAppend
  import opened Outbox
  import opened SealingProtocol
  import opened SealingProgress
  import opened SealerRunner
  import opened Ordered

  // ---------------------------------------------------------------------------------------
  // What a drain without interference does to the database
  // ---------------------------------------------------------------------------------------

  /** The captures of some tenants that are not sealed. */
  function Unsealed(db: Db, orgs: set<Text>): set<Text>
  {
    set id | id in db.outbox && db.outbox[id].orgId in orgs && !db.outbox[id].status.Sealed?
  }

  /** No capture of the tenants is stuck, failed, or refused by the event builder or the audit chain. */
  predicate Healthy(db: Db, orgs: set<Text>)
  {
    forall id | id in db.outbox && db.outbox[id].orgId in orgs ::
      && (db.outbox[id].status == Captured || db.outbox[id].status.Sealed?)
      && !Refused(db, id)
  }

  /** From `a` to `b` exactly `n` captures were sealed, all of them of the given tenants, and nothing
      else happened to any capture or chain. */
  ghost predicate Drained(a: Db, b: Db, orgs: set<Text>, n: int)
  {
    && a.outbox.Keys == b.outbox.Keys && a.chains.Keys == b.chains.Keys
    && (forall id | id in a.outbox :: b.outbox[id].(status := a.outbox[id].status) == a.outbox[id])
    && (forall id | id in a.outbox :: b.outbox[id].status == a.outbox[id].status
          || (b.outbox[id].status.Sealed? && a.outbox[id].orgId in orgs))
    && (forall c | c in a.chains :: b.chains[c].orgId == a.chains[c].orgId
          && b.chains[c].lastCaptured == a.chains[c].lastCaptured)
    && Unsealed(b, orgs) <= Unsealed(a, orgs) && NoNewBlock(a, b)
    && |Unsealed(a, orgs)| == |Unsealed(b, orgs)| + n
  }

  lemma DrainedNothing(a: Db, orgs: set<Text>)
    ensures Drained(a, a, orgs, 0)
  {
  }

  lemma DrainedTransitive(a: Db, b: Db, c: Db, orgs: set<Text>, n: int, m: int)
    requires Drained(a, b, orgs, n) && Drained(b, c, orgs, m)
    ensures Drained(a, c, orgs, n + m)
  {
    hide Unsealed;
  }

  lemma DrainedWider(a: Db, b: Db, few: set<Text>, orgs: set<Text>, n: int)
    requires Drained(a, b, few, n) && few <= orgs
    ensures Drained(a, b, orgs, n)
  {
    hide Unsealed, NoNewBlock;
    UnsealedWider(a, b, few, orgs);
    var rest := Unsealed(a, orgs) - Unsealed(a, few);
    assert Unsealed(a, orgs) == Unsealed(a, few) + rest;
  }

  /** What is unsealed outside the tenants drained stays unsealed. */
  lemma UnsealedWider(a: Db, b: Db, few: set<Text>, orgs: set<Text>)
    requires few <= orgs && a.outbox.Keys == b.outbox.Keys
    requires forall id | id in a.outbox :: b.outbox[id].orgId == a.outbox[id].orgId
    requires forall id | id in a.outbox ::
               b.outbox[id].status == a.outbox[id].status
               || (b.outbox[id].status.Sealed? && a.outbox[id].orgId in few)
    ensures Unsealed(a, few) <= Unsealed(a, orgs)
    ensures Unsealed(a, few) !! (Unsealed(a, orgs) - Unsealed(a, few))
    ensures Unsealed(b, few) !! (Unsealed(a, orgs) - Unsealed(a, few))
    ensures Unsealed(b, orgs) == Unsealed(b, few) + (Unsealed(a, orgs) - Unsealed(a, few))
  {
  }

  lemma DrainedHealthy(a: Db, b: Db, orgs: set<Text>, n: int)
    requires Drained(a, b, orgs, n)
    ensures forall few | Healthy(a, few) :: Healthy(b, few)
  {
    hide HasBannedKey, Unsealed, Blocked;
    forall few | Healthy(a, few) ensures Healthy(b, few) {
      forall id | id in b.outbox && b.outbox[id].orgId in few
        ensures (b.outbox[id].status == Captured || b.outbox[id].status.Sealed?) && !Refused(b, id)
      {
        assert b.outbox[id].(status := a.outbox[id].status) == a.outbox[id];
        assert b.outbox[id].orgId == a.outbox[id].orgId;
      }
    }
  }

  /** A drain that sealed nothing left every unsealed capture where it was. */
  lemma DrainedZero(a: Db, b: Db, orgs: set<Text>)
    requires Drained(a, b, orgs, 0)
    ensures Unsealed(a, orgs) == Unsealed(b, orgs)
  {
    SubsetSameSize(Unsealed(b, orgs), Unsealed(a, orgs));
  }

  lemma SubsetSameSize<T>(a: set<T>, b: set<T>)
    requires a <= b && |a| == |b|
    ensures a == b
  {
    assert |b - a| == 0;
  }

  // ---------------------------------------------------------------------------------------
  // One seal of a healthy chain
  // ---------------------------------------------------------------------------------------

  /** A seal of a healthy chain takes its next capture if it has one and is idle otherwise. */
  lemma HealthySeal(env: Env, db: Db, orgId: Text, chainId: Text, worker: Option<Text>, now: Text)
    requires GoodEnv(env) && DbInv(env, db) && Indexed(db.events)
    requires Healthy(db, {orgId}) && chainId in db.chains && db.chains[chainId].orgId == orgId
    ensures var r := SealOnce(env, db, orgId, orgId, chainId, worker, now);
            var st := db.chains[chainId];
            if st.lastSealed == st.lastCaptured then r == (db, Idle)
            else
              && r.1.SealedOne? && Drained(db, r.0, {orgId}, 1)
              && r.0.chains == db.chains[chainId := st.(lastSealed := st.lastSealed + 1)]
  {
    hide DbInv, GoodEnv, Indexed, SealOnce, Refused, Drained, Claimable, NoNewBlock;
    ChainBounds(env, db, chainId);
    var st := db.chains[chainId];
    if st.lastSealed == st.lastCaptured {
      NothingLeft(env, db, orgId, chainId);
      IdleSeal(env, db, orgId, chainId, worker, now);
    } else {
      var id := NextClaimable(env, db, orgId, chainId);
      ClaimTakes(env, db, orgId, chainId, id);
      SealsExactly(env, db, orgId, chainId, id, worker, now);
      SealBlocksNone(env, db, orgId, orgId, chainId, worker, now);
      OneDrained(db, SealOnce(env, db, orgId, orgId, chainId, worker, now).0, orgId, chainId, id,
                 env.derive(orgId, id));
    }
  }

  lemma ChainBounds(env: Env, db: Db, chainId: Text)
    requires DbInv(env, db) && chainId in db.chains
    ensures db.chains[chainId].lastSealed <= db.chains[chainId].lastCaptured
  {
    hide EventsValid, StampOk, EventOk, ValidContent, RowOk;
  }

  lemma NothingLeft(env: Env, db: Db, orgId: Text, chainId: Text)
    requires DbInv(env, db) && chainId in db.chains && db.chains[chainId].orgId == orgId
    requires db.chains[chainId].lastSealed == db.chains[chainId].lastCaptured
    ensures ClaimForSeal(db, orgId, orgId, chainId) == NothingToClaim
  {
    hide EventsValid, StampOk, EventOk, ValidContent, ChainsDense;
    forall id | id in db.outbox ensures !Claimable(db, chainId, id) {
      assert RowOk(env, db, id);
    }
  }

  lemma IdleSeal(env: Env, db: Db, orgId: Text, chainId: Text, worker: Option<Text>, now: Text)
    requires Indexed(db.events) && ClaimForSeal(db, orgId, orgId, chainId) == NothingToClaim
    ensures SealOnce(env, db, orgId, orgId, chainId, worker, now) == (db, Idle)
  {
    hide ClaimForSeal;
  }

  lemma NextClaimable(env: Env, db: Db, orgId: Text, chainId: Text) returns (id: Text)
    requires DbInv(env, db) && Healthy(db, {orgId}) && chainId in db.chains && db.chains[chainId].orgId == orgId
    requires db.chains[chainId].lastSealed < db.chains[chainId].lastCaptured
    ensures Claimable(db, chainId, id) && id in db.outbox && db.outbox[id].status == Captured
    ensures !Refused(db, id)
  {
    hide EventsValid, StampOk, EventOk, ValidContent, Refused;
    var k := db.chains[chainId].lastSealed + 1;
    assert Occupied(db, chainId, k);
    id :| id in db.outbox && db.outbox[id].chainId == chainId && db.outbox[id].seqNo == k;
    assert RowOk(env, db, id);
    assert db.outbox[id].orgId in {orgId};
  }

  lemma OneDrained(db: Db, db': Db, orgId: Text, chainId: Text, id: Text, eid: Text)
    requires id in db.outbox && chainId in db.chains && db.outbox[id].orgId == orgId && db.outbox[id].status == Captured
    requires db'.outbox == db.outbox[id := db.outbox[id].(status := Sealed(eid))]
    requires db'.chains == db.chains[chainId := db.chains[chainId].(lastSealed := db.chains[chainId].lastSealed + 1)]
    requires NoNewBlock(db, db')
    ensures Drained(db, db', {orgId}, 1)
  {
    hide NoNewBlock;
    assert Unsealed(db', {orgId}) == Unsealed(db, {orgId}) - {id};
    assert id in Unsealed(db, {orgId});
  }

  /** An unsealed capture's chain has work left. */
  lemma UnsealedChain(env: Env, db: Db, orgId: Text, id: Text)
    requires DbInv(env, db) && id in Unsealed(db, {orgId})
    ensures HasWork(db, orgId, db.outbox[id].chainId)
  {
    hide EventsValid, StampOk, EventOk, ValidContent, ChainsDense;
    assert RowOk(env, db, id);
  }

  predicate HasWork(db: Db, orgId: Text, chainId: Text)
  {
    chainId in db.chains && db.chains[chainId].orgId == orgId
    && db.chains[chainId].lastSealed < db.chains[chainId].lastCaptured
  }

  // ---------------------------------------------------------------------------------------
  // The loop
  // ---------------------------------------------------------------------------------------

  function Sum(xs: seq<nat>): nat
  {
    if |xs| == 0 then 0 else xs[0] + Sum(xs[1..])
  }

  lemma {:induction false} SumUpdate(xs: seq<nat>, k: nat, v: nat)
    requires k < |xs|
    ensures Sum(xs[k := v]) == Sum(xs) - xs[k] + v
  {
    if k == 0 {
      assert xs[0 := v][1..] == xs[1..];
    } else {
      assert xs[k := v][1..] == xs[1..][k - 1 := v];
      SumUpdate(xs[1..], k - 1, v);
    }
  }

  lemma {:induction false} SumAtLeast(xs: seq<nat>, k: nat)
    requires k < |xs|
    ensures xs[k] <= Sum(xs)
  {
    if k > 0 { SumAtLeast(xs[1..], k - 1); }
  }

  lemma {:induction false} SumZero(n: nat)
    ensures Sum(seq(n, i => 0)) == 0
  {
    if n > 0 {
      assert seq(n, i => 0)[1..] == seq(n - 1, i => 0);
      SumZero(n - 1);
    }
  }

  function Below(n: nat): (r: set<nat>)
    ensures forall k: nat :: k in r <==> k < n
  {
    if n == 0 then {} else Below(n - 1) + {n - 1}
  }

  function Min(a: int, b: int): int { if a <= b then a else b }

  /** How far each chain of a wave has been drained: the `k`-th by `sealed[k]` captures, and to its
      bound once its drain has ended. */
  ghost predicate WaveAt(a: Db, b: Db, orgId: Text, wave: seq<Text>, sealed: seq<nat>, live: set<nat>, claimBatch: nat)
  {
    && |sealed| == |wave| && Drained(a, b, {orgId}, Sum(sealed))
    && (forall k | 0 <= k < |wave| :: WaveChain(a, b, orgId, wave[k], sealed[k], k in live, claimBatch))
    && (forall c | c in a.chains && c !in wave :: b.chains[c] == a.chains[c])
  }

  ghost predicate WaveChain(a: Db, b: Db, orgId: Text, c: Text, sealed: nat, live: bool, claimBatch: nat)
    requires a.chains.Keys == b.chains.Keys
  {
    && c in a.chains && a.chains[c].orgId == orgId
    && b.chains[c] == a.chains[c].(lastSealed := a.chains[c].lastSealed + sealed)
    && sealed <= claimBatch && b.chains[c].lastSealed <= b.chains[c].lastCaptured
    && (!live ==> sealed == Min(claimBatch, a.chains[c].lastCaptured - a.chains[c].lastSealed))
  }

  /** The listed chains are those the query can return. */
  ghost predicate Listed(env: Env, db: Db, orgId: Text, wave: seq<Text>)
  {
    && (forall k | 0 <= k < |wave| :: wave[k] in db.chains && db.chains[wave[k]].orgId == orgId)
    && (forall j, k | 0 <= j < k < |wave| :: wave[j] != wave[k])
  }

  ghost predicate WaveGood(env: Env, db: Db, orgId: Text, wave: seq<Text>)
  {
    IsUuid(orgId) && Healthy(db, {orgId}) && Listed(env, db, orgId, wave)
  }

  lemma WaveStarts(env: Env, db: Db, orgId: Text, wave: seq<Text>, live: set<nat>, claimBatch: nat)
    requires DbInv(env, db) && WaveGood(env, db, orgId, wave) && forall k: nat | k < |wave| :: k in live
    ensures WaveAt(db, db, orgId, wave, seq(|wave|, i => 0), live, claimBatch)
  {
    hide DbInv, Healthy, IsUuid;
    SumZero(|wave|);
    DrainedNothing(db, {orgId});
    forall k | 0 <= k < |wave| ensures WaveChain(db, db, orgId, wave[k], 0, k in live, claimBatch) {
      ChainBounds(env, db, wave[k]);
    }
  }

  /** One more capture of the `k`-th chain. */
  lemma WaveSeals(a: Db, b: Db, c: Db, orgId: Text, wave: seq<Text>, sealed: seq<nat>, live: set<nat>,
                  claimBatch: nat, k: nat)
    requires WaveAt(a, b, orgId, wave, sealed, live, claimBatch) && k < |wave| && k in live && sealed[k] < claimBatch
    requires forall j, i | 0 <= j < i < |wave| :: wave[j] != wave[i]
    requires wave[k] in b.chains && b.chains[wave[k]].lastSealed < b.chains[wave[k]].lastCaptured
    requires Drained(b, c, {orgId}, 1)
    requires c.chains == b.chains[wave[k] := b.chains[wave[k]].(lastSealed := b.chains[wave[k]].lastSealed + 1)]
    ensures WaveAt(a, c, orgId, wave, sealed[k := sealed[k] + 1], live, claimBatch)
  {
    hide Drained;
    var next := sealed[k := sealed[k] + 1];
    SumUpdate(sealed, k, sealed[k] + 1);
    DrainedTransitive(a, b, c, {orgId}, Sum(sealed), 1);
    DrainedKeys(a, b, {orgId}, Sum(sealed));
    DrainedKeys(b, c, {orgId}, 1);
    forall i | 0 <= i < |wave| ensures WaveChain(a, c, orgId, wave[i], next[i], i in live, claimBatch) {
      assert WaveChain(a, b, orgId, wave[i], sealed[i], i in live, claimBatch);
    }
  }

  lemma DrainedKeys(a: Db, b: Db, orgs: set<Text>, n: int)
    requires Drained(a, b, orgs, n)
    ensures a.chains.Keys == b.chains.Keys
  {
  }

  /** The drain of the `k`-th chain ends at its bound. */
  lemma WaveEnds(a: Db, b: Db, orgId: Text, wave: seq<Text>, sealed: seq<nat>, live: set<nat>, claimBatch: nat, k: nat)
    requires WaveAt(a, b, orgId, wave, sealed, live, claimBatch) && k < |wave|
    requires wave[k] in b.chains
    requires sealed[k] == claimBatch || b.chains[wave[k]].lastSealed == b.chains[wave[k]].lastCaptured
    ensures WaveAt(a, b, orgId, wave, sealed, live - {k}, claimBatch)
  {
    hide Drained;
    DrainedKeys(a, b, {orgId}, Sum(sealed));
    forall i | 0 <= i < |wave| ensures WaveChain(a, b, orgId, wave[i], sealed[i], i in live - {k}, claimBatch) {
      assert WaveChain(a, b, orgId, wave[i], sealed[i], i in live, claimBatch);
    }
  }

  lemma SumMore(xs: seq<nat>, x: nat)
    ensures Sum(xs + [x]) == Sum(xs) + x
  {
    SumSnoc(xs + [x], |xs|);
    assert (xs + [x])[..|xs|] == xs && (xs + [x])[..|xs| + 1] == xs + [x];
  }

  /** The loop over the results of a wave. */
  method AddUp(results: seq<nat>, sealed0: nat, idle0: nat) returns (sealed: nat, idle: nat)
    ensures sealed == sealed0 + Sum(results)
    ensures idle == idle0 + |set k: nat | k < |results| && results[k] == 0|
  {
    sealed, idle := sealed0, idle0;
    for k := 0 to |results|
      invariant sealed == sealed0 + Sum(results[..k])
      invariant idle == idle0 + |set j: nat | j < k && results[j] == 0|
    {
      SumSnoc(results, k);
      assert (set j: nat | j < k + 1 && results[j] == 0)
          == (set j: nat | j < k && results[j] == 0) + if results[k] == 0 then {k} else {};
      sealed := sealed + results[k];
      if results[k] == 0 { idle := idle + 1; }
    }
    assert results[..|results|] == results;
  }

  class Scanner {
    const r: Runner
    const claimBatch: nat
    const maxInFlight: nat
    const recoveryBatch: nat
    const maxRetries: nat
    const worker: Option<Text>

    constructor (runner: Runner, claimBatch: nat, maxInFlight: nat, recoveryBatch: nat, maxRetries: nat,
                 worker: Option<Text>)
      requires claimBatch > 0 && maxInFlight > 0
      ensures r == runner && this.claimBatch == claimBatch && this.maxInFlight == maxInFlight
      ensures this.recoveryBatch == recoveryBatch && this.maxRetries == maxRetries && this.worker == worker
    {
      this.r := runner;
      this.claimBatch := claimBatch;
      this.maxInFlight := maxInFlight;
      this.recoveryBatch := recoveryBatch;
      this.maxRetries := maxRetries;
      this.worker := worker;
    }

    /** One turn of `drainChain` for the `k`-th chain of a wave: whether it sealed a capture. */
    method DrainTurn(orgId: Text, wave: seq<Text>, k: nat, ghost a: Db, ghost sealed: seq<nat>, ghost live: set<nat>)
      returns (more: bool)
      requires r.Valid() && k < |wave| == |sealed| && k in live && sealed[k] < claimBatch
      modifies r
      ensures r.Valid() && Evolves(old(r.db), r.db)
      ensures Seals(r.own) >= Seals(old(r.own)) + if more then 1 else 0
      ensures r.quiet ==> old(r.quiet)
      ensures r.quiet && WaveGood(r.env, a, orgId, wave)
              && WaveAt(a, old(r.db), orgId, wave, sealed, live, claimBatch) ==>
                if more then WaveAt(a, r.db, orgId, wave, sealed[k := sealed[k] + 1], live, claimBatch)
                else WaveAt(a, r.db, orgId, wave, sealed, live - {k}, claimBatch)
    {
      hide Evolves, Indexed, GoodEnv, Reached, AllAdmissible, DbInv, WaveAt, Healthy, Listed, IsUuid, Inv, Drained;
      ghost var b := r.db;
      r.ValidInv();
      var now: Text := *;
      var one := r.SealOnce(orgId, wave[k], worker, now);
      SealsGrow(old(r.own), r.own);
      if r.quiet && WaveGood(r.env, a, orgId, wave) && WaveAt(a, b, orgId, wave, sealed, live, claimBatch) {
        TurnTaken(r.env, a, b, orgId, wave, sealed, live, claimBatch, k, worker, now);
      }
      return one.SealedOne?;
    }

    /** The drains of one wave run concurrently: at each turn any of those not yet ended takes its
        next seal, and it ends when it is idle, throws, or has sealed `claimBatch` captures. */
    method DrainWave(orgId: Text, wave: seq<Text>) returns (sealed: seq<nat>)
      requires r.Valid()
      modifies r
      ensures r.Valid() && Evolves(old(r.db), r.db) && |sealed| == |wave|
      ensures Seals(r.own) >= Seals(old(r.own)) + Sum(sealed)
      ensures r.quiet ==> old(r.quiet)
      ensures r.quiet && WaveGood(r.env, old(r.db), orgId, wave) ==>
                WaveAt(old(r.db), r.db, orgId, wave, sealed, {}, claimBatch)
    {
      hide Evolves, Indexed, GoodEnv, Reached, AllAdmissible, DbInv, WaveAt, WaveGood, Inv, Sum;
      EvolvesReflexive(r.db);
      sealed := seq(|wave|, i => 0);
      SumZero(|wave|);
      var live := Below(|wave|);
      r.ValidInv();
      ghost var a, good := r.db, WaveGood(r.env, r.db, orgId, wave);
      if good { WaveStarts(r.env, a, orgId, wave, live, claimBatch); }
      ghost var budget: seq<nat> := seq(|wave|, i => claimBatch + 1);
      while live != {}
        invariant r.Valid() && Evolves(a, r.db) && |sealed| == |wave| == |budget|
        invariant Seals(r.own) >= Seals(old(r.own)) + Sum(sealed)
        invariant forall k: nat | k in live :: k < |wave|
        invariant forall k: nat | k in live :: sealed[k] <= claimBatch && budget[k] == claimBatch + 1 - sealed[k]
        invariant r.quiet ==> old(r.quiet)
        invariant r.quiet && good ==> WaveAt(a, r.db, orgId, wave, sealed, live, claimBatch)
        decreases Sum(budget)
      {
        var k: nat :| k in live;
        ghost var b := r.db;
        var more := false;
        if sealed[k] == claimBatch {
          EvolvesReflexive(b);
          if r.quiet && good { EndAt(a, b, orgId, wave, sealed, live, claimBatch, k); }
        } else {
          more := DrainTurn(orgId, wave, k, a, sealed, live);
        }
        EvolvesTransitive(a, b, r.db);
        SumUpdate(budget, k, if more then budget[k] - 1 else 0);
        budget := budget[k := if more then budget[k] - 1 else 0];
        if more {
          SumUpdate(sealed, k, sealed[k] + 1);
          sealed := sealed[k := sealed[k] + 1];
        } else {
          live := live - {k};
        }
      }
    }

    /** `discoverClaimableChains`: the tenant's first `claimBatch` chains with work, by chain id; None
        when it throws. */
    method DiscoverClaimableChains(orgId: Text) returns (chains: Option<seq<Text>>)
      requires r.Valid()
      modifies r
      ensures r.Valid() && Evolves(old(r.db), r.db)
      ensures r.quiet ==> old(r.quiet) && r.db == old(r.db)
      ensures r.own == old(r.own)
      ensures r.quiet && IsUuid(orgId) ==> chains.Some?
      ensures chains.Some? ==> FirstWithWork(r.db, orgId, chains.value, claimBatch)
    {
      hide Evolves, Indexed, GoodEnv, Reached, AllAdmissible, DbInv, IsUuid, Inv, HasWork;
      EvolvesReflexive(r.db);
      var failed := r.Fault();
      if failed || !IsUuid(orgId) { return None; }
      r.Others();
      var work := set c | c in r.db.chains && HasWork(r.db, orgId, c);
      var found := FirstInOrder(work, claimBatch);
      WorkMeans(r.db, orgId);
      forall i | 0 <= i < |found| ensures HasWork(r.db, orgId, found[i]) {
        assert found[i] in found && found[i] in work;
      }
      return Some(found);
    }

    /** Backlog, discovery and waves for one tenant; not `ok` when an exception leaves the tick. */
    method DrainOrg(orgId: Text) returns (ok: bool, sealed: nat, idle: nat)
      requires r.Valid() && claimBatch > 0 && maxInFlight > 0
      modifies r
      ensures r.Valid() && Evolves(old(r.db), r.db)
      ensures Seals(r.own) >= Seals(old(r.own)) + sealed
      ensures r.quiet ==> old(r.quiet)
      ensures r.quiet && IsUuid(orgId) && Healthy(old(r.db), {orgId}) ==>
                && ok && Drained(old(r.db), r.db, {orgId}, sealed)
                && (Unsealed(old(r.db), {orgId}) != {} ==> sealed >= 1)
    {
      hide Evolves, Indexed, GoodEnv, Reached, AllAdmissible, DbInv, WaveAt, Healthy, Listed, IsUuid, Inv, Drained,
           FirstWithWork, Unsealed, HasWork;
      EvolvesReflexive(r.db);
      ok, sealed, idle := false, 0, 0;
      ghost var a := r.db;
      r.ValidInv();
      var found := DiscoverClaimableChains(orgId);
      if found.None? { return; }
      var chains := found.value;
      ghost var good := IsUuid(orgId) && Healthy(a, {orgId});
      ghost var quietly := r.quiet;
      if r.quiet { WorkFound(r.env, a, orgId, chains, claimBatch); }
      DrainedNothing(a, {orgId});
      var i := 0;
      while i < |chains|
        invariant 0 <= i <= |chains|
        invariant r.Valid() && Evolves(a, r.db) && Seals(r.own) >= Seals(old(r.own)) + sealed
        invariant r.quiet ==> old(r.quiet) && quietly
        invariant r.quiet ==> FirstWithWork(a, orgId, chains, claimBatch)
        invariant r.quiet && i == 0 ==> r.db == a
        invariant r.quiet && good ==> Drained(a, r.db, {orgId}, sealed) && (i > 0 ==> sealed >= 1)
        decreases |chains| - i
      {
        ghost var b, was, start := r.db, sealed, i;
        var end := if i + maxInFlight <= |chains| then i + maxInFlight else |chains|;
        var wave := chains[i..end];
        var results := DrainWave(orgId, wave);
        EvolvesTransitive(a, b, r.db);
        if r.quiet && good { WaveCounts(r.env, a, b, r.db, orgId, chains, i, end, was, results, claimBatch); }
        sealed, idle := AddUp(results, sealed, idle);
        i := end;
      }
      ok := true;
    }

    /** `runScanTick`: None when an exception escapes. It never reports a seal it did not commit, and adds up
        the recovered and failed rows of its sweeps, whatever fails and whatever others do. When nothing
        interferes and no capture of the listed tenants is stuck, failed or refused, the tick reports exactly
        the captures it sealed, and it seals at least one while there is any. */
    method RunScanTick(orgs: seq<Text>)
      returns (summary: Option<TickSummary>, ghost recovered: seq<nat>, ghost failed: seq<nat>)
      requires r.Valid() && claimBatch > 0 && maxInFlight > 0
      modifies r
      ensures r.Valid() && Evolves(old(r.db), r.db)
      ensures r.quiet ==> old(r.quiet)
      ensures summary.Some? ==> summary.value.orgsScanned == |orgs| == |recovered| == |failed|
      ensures summary.Some? ==> Seals(r.own) >= Seals(old(r.own)) + summary.value.sealed
      ensures summary.Some? ==>
                summary.value.staleRecovered == Sum(recovered) && summary.value.staleFailed == Sum(failed)
      ensures r.quiet && Uuids(orgs) && Healthy(old(r.db), SetOf(orgs)) ==>
                && summary.Some? && Drained(old(r.db), r.db, SetOf(orgs), summary.value.sealed)
                && (Unsealed(old(r.db), SetOf(orgs)) != {} ==> summary.value.sealed >= 1)
                && summary.value.staleRecovered == 0 && summary.value.staleFailed == 0
    {
      hide Evolves, Indexed, GoodEnv, Reached, AllAdmissible, DbInv, Healthy, IsUuid, Inv, Drained, Unsealed, Counts,
           AllAccounted, SetOf;
      EvolvesReflexive(r.db);
      ghost var a, all := r.db, SetOf(orgs);
      ghost var good := Uuids(orgs) && Healthy(a, all);
      DrainedNothing(a, all);
      var sum := TickSummary(|orgs|, 0, 0, 0, 0);
      recovered, failed := [], [];
      for i := 0 to |orgs|
        invariant r.Valid() && Evolves(a, r.db) && sum.orgsScanned == |orgs| && |recovered| == |failed| == i
        invariant Seals(r.own) >= Seals(old(r.own)) + sum.sealed
        invariant sum.staleRecovered == Sum(recovered) && sum.staleFailed == Sum(failed)
        invariant r.quiet ==> old(r.quiet)
        invariant r.quiet && good ==>
                    Drained(a, r.db, all, sum.sealed) && sum.staleRecovered == 0 && sum.staleFailed == 0
        invariant r.quiet && good && sum.sealed == 0 ==> forall k | 0 <= k < i :: Unsealed(a, {orgs[k]}) == {}
      {
        ghost var b := r.db;
        var ok, sealed, idle := DrainOrg(orgs[i]);
        ghost var c := r.db;
        EvolvesTransitive(a, b, c);
        if r.quiet && good { OrgCounts(a, b, orgs, i, sum.sealed); }
        if !ok { return None, recovered, failed; }
        if r.quiet && good { OrgDrained(a, b, c, orgs, i, sum.sealed, sealed); }
        ghost var ids, outcomes, errors;
        ghost var own := r.own;
        var sweep;
        sweep, ids, outcomes, errors := r.SweepStaleRecoveries(orgs[i], recoveryBatch, maxRetries, worker);
        EvolvesTransitive(a, c, r.db);
        if sweep.None? { return None, recovered, failed; }
        SealsGrow(own, r.own);
        SumMore(recovered, sweep.value.recovered);
        SumMore(failed, sweep.value.failed);
        recovered, failed := recovered + [sweep.value.recovered], failed + [sweep.value.failed];
        sum := sum.(sealed := sum.sealed + sealed, idleChains := sum.idleChains + idle,
                    staleRecovered := sum.staleRecovered + sweep.value.recovered,
                    staleFailed := sum.staleFailed + sweep.value.failed);
      }
      if r.quiet && good { AllOrgs(a, orgs); }
      return Some(sum), recovered, failed;
    }

    /** The claim loop until a stop is asked for after `ticks` ticks; a failed tick is logged and the
        loop goes on. When nothing interferes, as many ticks as there are unsealed captures seal them
        all. */
    method RunClaimLoop(orgs: seq<Text>, ticks: nat)
      requires r.Valid() && claimBatch > 0 && maxInFlight > 0
      modifies r
      ensures r.Valid() && Evolves(old(r.db), r.db)
      ensures r.quiet && Uuids(orgs) && Healthy(old(r.db), SetOf(orgs))
              && ticks >= |Unsealed(old(r.db), SetOf(orgs))| ==>
                Unsealed(r.db, SetOf(orgs)) == {}
    {
      hide Evolves, Indexed, GoodEnv, Reached, AllAdmissible, DbInv, Healthy, IsUuid, Inv, Drained, Unsealed, SetOf,
           Uuids;
      EvolvesReflexive(r.db);
      ghost var a, all := r.db, SetOf(orgs);
      ghost var good := Uuids(orgs) && Healthy(a, all);
      ghost var total: int := 0;
      DrainedNothing(a, all);
      for t := 0 to ticks
        invariant r.Valid() && Evolves(a, r.db) && 0 <= total
        invariant r.quiet && good ==> Drained(a, r.db, all, total) && (Unsealed(r.db, all) != {} ==> total >= t)
      {
        ghost var b := r.db;
        ghost var recovered, failed;
        var summary;
        summary, recovered, failed := RunScanTick(orgs);
        EvolvesTransitive(a, b, r.db);
        if r.quiet && good { TickCounts(a, b, r.db, all, total); }
        total := total + if summary.Some? then summary.value.sealed else 0;
      }
      if r.quiet && good { DrainedSize(a, r.db, all, total); }
    }
  }

  predicate Uuids(orgs: seq<Text>)
  {
    forall i | 0 <= i < |orgs| :: IsUuid(orgs[i])
  }

  function SetOf(orgs: seq<Text>): set<Text>
  {
    set o | o in orgs
  }

  /** The query's result: distinct, in order, complete unless the limit was reached. */
  ghost predicate FirstWithWork(db: Db, orgId: Text, chains: seq<Text>, limit: nat)
  {
    && |chains| <= limit
    && (forall i | 0 <= i < |chains| :: HasWork(db, orgId, chains[i]))
    && (forall i, j | 0 <= i < j < |chains| :: Le(chains[i], chains[j]) && chains[i] != chains[j])
    && (forall c | HasWork(db, orgId, c) && c !in chains ::
          |chains| == limit && forall i | 0 <= i < |chains| :: Le(chains[i], c))
  }

  lemma WorkMeans(db: Db, orgId: Text)
    ensures forall c | HasWork(db, orgId, c) :: c in db.chains
  {
  }

  lemma EndAt(a: Db, b: Db, orgId: Text, wave: seq<Text>, sealed: seq<nat>, live: set<nat>, claimBatch: nat, k: nat)
    requires WaveAt(a, b, orgId, wave, sealed, live, claimBatch) && k < |wave| && sealed[k] == claimBatch
    ensures WaveAt(a, b, orgId, wave, sealed, live - {k}, claimBatch)
  {
    assert WaveChain(a, b, orgId, wave[k], sealed[k], k in live, claimBatch);
    WaveEnds(a, b, orgId, wave, sealed, live, claimBatch, k);
  }

  /** One turn of one drain, when nothing interferes. */
  lemma TurnTaken(env: Env, a: Db, b: Db, orgId: Text, wave: seq<Text>, sealed: seq<nat>, live: set<nat>,
                  claimBatch: nat, k: nat, worker: Option<Text>, now: Text)
    requires GoodEnv(env) && DbInv(env, b) && Indexed(b.events) && WaveGood(env, a, orgId, wave)
    requires WaveAt(a, b, orgId, wave, sealed, live, claimBatch) && k < |wave| && k in live && sealed[k] < claimBatch
    ensures var r := SealOnce(env, b, orgId, orgId, wave[k], worker, now);
            if r.1.SealedOne? then WaveAt(a, r.0, orgId, wave, sealed[k := sealed[k] + 1], live, claimBatch)
            else r.0 == b && WaveAt(a, b, orgId, wave, sealed, live - {k}, claimBatch)
  {
    hide DbInv, GoodEnv, Indexed, SealOnce, Drained, Healthy;
    DrainedHealthy(a, b, {orgId}, Sum(sealed));
    DrainedKeys(a, b, {orgId}, Sum(sealed));
    assert WaveChain(a, b, orgId, wave[k], sealed[k], k in live, claimBatch);
    HealthySeal(env, b, orgId, wave[k], worker, now);
    var r := SealOnce(env, b, orgId, orgId, wave[k], worker, now);
    if r.1.SealedOne? {
      WaveSeals(a, b, r.0, orgId, wave, sealed, live, claimBatch, k);
    } else {
      WaveEnds(a, b, orgId, wave, sealed, live, claimBatch, k);
    }
  }

  lemma {:induction false} SumSnoc(xs: seq<nat>, k: nat)
    requires k < |xs|
    ensures Sum(xs[..k + 1]) == Sum(xs[..k]) + xs[k]
  {
    if k > 0 {
      assert xs[..k + 1][1..] == xs[1..][..k] && xs[..k][1..] == xs[1..][..k - 1];
      SumSnoc(xs[1..], k - 1);
    }
  }

  /** While a healthy tenant has unsealed captures, discovery lists a chain. */
  lemma WorkFound(env: Env, db: Db, orgId: Text, chains: seq<Text>, claimBatch: nat)
    requires DbInv(env, db) && FirstWithWork(db, orgId, chains, claimBatch) && claimBatch > 0
    ensures Unsealed(db, {orgId}) != {} ==> |chains| > 0
  {
    hide DbInv, HasWork;
    if Unsealed(db, {orgId}) != {} {
      var id :| id in Unsealed(db, {orgId});
      UnsealedChain(env, db, orgId, id);
    }
  }

  /** A slice of the discovered chains may be drained as a wave, and the first wave seals. */
  lemma WaveCounts(env: Env, a: Db, b: Db, c: Db, orgId: Text, chains: seq<Text>, i: nat, end: nat, was: nat,
                   results: seq<nat>, claimBatch: nat)
    requires i < end <= |chains| && FirstWithWork(a, orgId, chains, claimBatch) && claimBatch > 0
    requires Drained(a, b, {orgId}, was) && Healthy(a, {orgId}) && (i == 0 ==> b == a) && (i > 0 ==> was >= 1)
    requires IsUuid(orgId)
    requires WaveGood(env, b, orgId, chains[i..end]) ==>
               WaveAt(b, c, orgId, chains[i..end], results, {}, claimBatch)
    ensures Drained(a, c, {orgId}, was + Sum(results)) && was + Sum(results) >= 1
  {
    hide Drained, Healthy, IsUuid;
    var wave := chains[i..end];
    DrainedHealthy(a, b, {orgId}, was);
    DrainedOrgs(a, b, {orgId}, was);
    forall k | 0 <= k < |wave| ensures wave[k] in b.chains && b.chains[wave[k]].orgId == orgId {
      assert HasWork(a, orgId, chains[i + k]);
    }
    assert Listed(env, b, orgId, wave);
    DrainedTransitive(a, b, c, {orgId}, was, Sum(results));
    if i == 0 {
      DrainedKeys(b, c, {orgId}, Sum(results));
      assert WaveChain(b, c, orgId, wave[0], results[0], 0 in {}, claimBatch);
      assert HasWork(a, orgId, chains[0]);
      SumAtLeast(results, 0);
    }
  }

  lemma DrainedOrgs(a: Db, b: Db, orgs: set<Text>, n: int)
    requires Drained(a, b, orgs, n)
    ensures forall c | c in a.chains :: c in b.chains && b.chains[c].orgId == a.chains[c].orgId
  {
    assert a.chains.Keys == b.chains.Keys;
  }

  /** The next tenant is healthy, and if nothing has been sealed its unsealed captures are those the
      tick began with. */
  lemma OrgCounts(a: Db, b: Db, orgs: seq<Text>, i: nat, n: nat)
    requires i < |orgs| && Drained(a, b, SetOf(orgs), n) && Healthy(a, SetOf(orgs))
    ensures Healthy(b, {orgs[i]}) && (n == 0 ==> Unsealed(a, {orgs[i]}) == Unsealed(b, {orgs[i]}))
    ensures forall id :: !IsSealing(b, orgs[i], id)
  {
    hide HasBannedKey;
    DrainedHealthy(a, b, SetOf(orgs), n);
    assert orgs[i] in SetOf(orgs);
    if n == 0 {
      DrainedZero(a, b, SetOf(orgs));
      forall id ensures id in Unsealed(a, {orgs[i]}) <==> id in Unsealed(b, {orgs[i]}) {
        if id in a.outbox { assert b.outbox[id].(status := a.outbox[id].status) == a.outbox[id]; }
        assert id in Unsealed(a, SetOf(orgs)) <==> id in Unsealed(b, SetOf(orgs));
      }
    }
  }

  lemma OrgDrained(a: Db, b: Db, c: Db, orgs: seq<Text>, i: nat, n: nat, m: nat)
    requires i < |orgs| && Drained(a, b, SetOf(orgs), n) && Drained(b, c, {orgs[i]}, m) && Healthy(a, SetOf(orgs))
    ensures Drained(a, c, SetOf(orgs), n + m)
    ensures forall id :: !IsSealing(c, orgs[i], id)
  {
    hide Drained, HasBannedKey;
    assert orgs[i] in SetOf(orgs);
    DrainedWider(b, c, {orgs[i]}, SetOf(orgs), m);
    DrainedTransitive(a, b, c, SetOf(orgs), n, m);
    DrainedHealthy(a, c, SetOf(orgs), n + m);
  }

  lemma AllOrgs(a: Db, orgs: seq<Text>)
    ensures (forall k | 0 <= k < |orgs| :: Unsealed(a, {orgs[k]}) == {}) ==> Unsealed(a, SetOf(orgs)) == {}
  {
    if Unsealed(a, SetOf(orgs)) != {} {
      var id :| id in Unsealed(a, SetOf(orgs));
      var k :| 0 <= k < |orgs| && orgs[k] == a.outbox[id].orgId;
      assert id in Unsealed(a, {orgs[k]});
    }
  }

  lemma TickCounts(a: Db, b: Db, c: Db, all: set<Text>, total: int)
    requires Drained(a, b, all, total) && Healthy(a, all)
    ensures Healthy(b, all)
    ensures forall n: nat | Drained(b, c, all, n) :: Drained(a, c, all, total + n)
    ensures Unsealed(b, all) == {} ==> forall n: nat | Drained(b, c, all, n) :: Unsealed(c, all) == {}
  {
    hide Healthy, Unsealed;
    DrainedHealthy(a, b, all, total);
    forall n: nat | Drained(b, c, all, n) ensures Drained(a, c, all, total + n) {
      hide Drained;
      DrainedTransitive(a, b, c, all, total, n);
    }
  }

  lemma DrainedSize(a: Db, b: Db, all: set<Text>, total: int)
    requires Drained(a, b, all, total)
    ensures total >= |Unsealed(a, all)| ==> Unsealed(b, all) == {}
  {
    hide Unsealed;
  }
}
