/** The audit bridge's transaction envelope and the lifecycle of the client it runs on. A script says
    what each statement does: whether it fails, whether it then leaves a transaction open, and whether
    the connection emits an error event meanwhile. */
module AuditBridge {
  import opened Wrappers

  datatype Posture = BestEffort | Strict

  datatype Drop =
    | MissingRequestIdentity | InvalidRuntimeEvent | CanonicalizationFailed
    | CaptureFailed | EvidenceIdempotencyConflict

  /** An exception that leaves the transaction stage; `ref` stands for the object's identity. A unique
      violation is told apart by its code. */
  datatype Failure = Failure(uniqueViolation: bool, ref: nat)

  /** What a caller catches: a failure of the transaction stage itself, or a typed marker of an earlier
      drop. */
  datatype Cause = Original(failure: Failure) | Marker(reason: Drop)

  /** What the caller of the bridge observes. */
  datatype Reply = Resolved | Rejected(cause: Cause)

  function ClassifyCaptureError(f: Failure): Drop
  {
    if f.uniqueViolation then EvidenceIdempotencyConflict else CaptureFailed
  }

  /** `opens` is the state of the transaction after a failure. */
  datatype Effect = Effect(error: Option<Failure>, opens: bool, fires: bool)

  /** What happens to one capture: the checkout, the attestation queries of the worker's client, the four
      statements of the envelope, and the ROLLBACK should it be issued. */
  datatype Script = Script(
    connect: Option<Failure>, attest: Effect, begin: Effect, setOrg: Effect, capture: Effect, commit: Effect,
    rollback: Effect)

  // ---------------------------------------------------------------------------------------
  // What a script comes to
  // ---------------------------------------------------------------------------------------

  /** The first failure of the envelope. */
  function EnvelopeError(s: Script): Option<Failure>
  {
    if s.begin.error.Some? then s.begin.error
    else if s.setOrg.error.Some? then s.setOrg.error
    else if s.capture.error.Some? then s.capture.error
    else s.commit.error
  }

  /** Whether the envelope emits an error event before it ends. */
  predicate EnvelopeFires(s: Script)
  {
    || s.begin.fires
    || (s.begin.error.None? && s.setOrg.fires)
    || (s.begin.error.None? && s.setOrg.error.None? && s.capture.fires)
    || (s.begin.error.None? && s.setOrg.error.None? && s.capture.error.None? && s.commit.fires)
  }

  predicate Fires(s: Script) { EnvelopeFires(s) || (EnvelopeError(s).Some? && s.rollback.fires) }

  /** The envelope and the ROLLBACK it calls for both failed, and a transaction is open after them. */
  predicate LeavesOpen(s: Script) { EnvelopeError(s).Some? && s.rollback.error.Some? && s.rollback.opens }

  /** The failure of the transaction stage: of the checkout, the attestation or the envelope. */
  function StageError(onWorker: bool, s: Script): Option<Failure>
  {
    if s.connect.Some? then s.connect
    else if onWorker && s.attest.error.Some? then s.attest.error
    else EnvelopeError(s)
  }

  /** On a direct route a client goes back to the pool inside a transaction on a script such as this: the
      capture fails in its transaction, and so does the ROLLBACK. */
  lemma DirectCaptureMayLeaveOpen()
    ensures var ok := Effect(None, false, false);
            var lost := Effect(Some(Failure(false, 0)), true, false);
            var s := Script(None, ok, ok, ok, lost, ok, lost);
            LeavesOpen(s) && StageError(false, s) == lost.error
  {
  }

  // ---------------------------------------------------------------------------------------
  // The objects
  // ---------------------------------------------------------------------------------------

  class Process {
    /** An error event nobody listened for ends the process. */
    var crashed: bool

    constructor ()
      ensures !crashed
    {
      crashed := false;
    }
  }

  /** The flags of one checkout: `connectionFailed` is set by its listener, `unusable` by its user. */
  class Checkout {
    var connectionFailed: bool
    var unusable: bool

    constructor ()
      ensures !connectionFailed && !unusable
    {
      connectionFailed := false;
      unusable := false;
    }
  }

  class PgClient {
    var txOpen: bool
    var listener: Checkout?
    /** Capture transactions whose COMMIT was acknowledged. */
    ghost var acknowledged: nat

    constructor ()
      ensures !txOpen && listener == null && acknowledged == 0
    {
      txOpen := false;
      listener := null;
      acknowledged := 0;
    }

    ghost predicate Clean()
      reads this
    {
      !txOpen && listener == null
    }

    /** The connection may emit an error event: its listener hears it, or the process ends. */
    method Emit(fires: bool, proc: Process)
      modifies proc, if listener == null then {} else {listener}
      ensures proc.crashed == (old(proc.crashed) || (fires && listener == null))
      ensures listener != null ==>
                listener.connectionFailed == (old(listener.connectionFailed) || fires)
                && listener.unusable == old(listener.unusable)
    {
      if fires {
        if listener != null { listener.connectionFailed := true; } else { proc.crashed := true; }
      }
    }

    /** A statement that leaves the transaction as `after` says when it succeeds. */
    method Execute(e: Effect, after: bool, proc: Process) returns (error: Option<Failure>)
      modifies this`txOpen, proc, if listener == null then {} else {listener}
      ensures error == e.error && txOpen == if e.error.None? then after else e.opens
      ensures proc.crashed == (old(proc.crashed) || (e.fires && listener == null))
      ensures listener != null ==>
                listener.connectionFailed == (old(listener.connectionFailed) || e.fires)
                && listener.unusable == old(listener.unusable)
    {
      Emit(e.fires, proc);
      txOpen := if e.error.None? then after else e.opens;
      return e.error;
    }

    /** Only an acknowledged COMMIT counts. */
    method Commit(e: Effect, proc: Process) returns (error: Option<Failure>)
      modifies this`txOpen, this`acknowledged, proc, if listener == null then {} else {listener}
      ensures error == e.error && txOpen == (e.error.Some? && e.opens)
      ensures acknowledged == old(acknowledged) + if e.error.None? then 1 else 0
      ensures proc.crashed == (old(proc.crashed) || (e.fires && listener == null))
      ensures listener != null ==>
                listener.connectionFailed == (old(listener.connectionFailed) || e.fires)
                && listener.unusable == old(listener.unusable)
    {
      error := Execute(e, false, proc);
      if error.None? { acknowledged := acknowledged + 1; }
    }
  }

  class Pool {
    var idle: set<PgClient>

    constructor ()
      ensures idle == {}
    {
      idle := {};
    }

    /** Every client in the pool has no open transaction and no checkout listener. */
    ghost predicate Clean()
      reads this, idle
    {
      forall c | c in idle :: c.Clean()
    }

    /** No client in the pool has a checkout listener. */
    ghost predicate Unheard()
      reads this, idle
    {
      forall c | c in idle :: c.listener == null
    }

    /** Takes an idle client out of the pool, or a new one. */
    method Connect() returns (client: PgClient)
      requires Unheard()
      modifies this
      ensures idle == old(idle) - {client} && client.listener == null
      ensures client in old(idle) || (fresh(client) && !client.txOpen && client.acknowledged == 0)
    {
      if c :| c in idle {
        idle := idle - {c};
        return c;
      }
      client := new PgClient();
    }

    /** `release(destroy)`: a destroyed client never comes back. */
    method Release(client: PgClient, destroy: bool)
      modifies this
      ensures idle == if destroy then old(idle) else old(idle) + {client}
    {
      if !destroy { idle := idle + {client}; }
    }
  }

  // ---------------------------------------------------------------------------------------
  // The envelope
  // ---------------------------------------------------------------------------------------

  /** BEGIN, set the tenant, capture, COMMIT; stops at the first failure. */
  method RunEnvelope(c: PgClient, s: Script, proc: Process) returns (failure: Option<Failure>)
    modifies c`txOpen, c`acknowledged, proc, if c.listener == null then {} else {c.listener}
    ensures failure == EnvelopeError(s) && (failure.None? ==> !c.txOpen)
    ensures c.acknowledged == old(c.acknowledged) + if failure.None? then 1 else 0
    ensures proc.crashed == (old(proc.crashed) || (EnvelopeFires(s) && c.listener == null))
    ensures c.listener != null ==>
              c.listener.connectionFailed == (old(c.listener.connectionFailed) || EnvelopeFires(s))
              && c.listener.unusable == old(c.listener.unusable)
  {
    failure := c.Execute(s.begin, true, proc);
    if failure.Some? { return; }
    failure := c.Execute(s.setOrg, true, proc);
    if failure.Some? { return; }
    failure := c.Execute(s.capture, true, proc);
    if failure.Some? { return; }
    failure := c.Commit(s.commit, proc);
  }

  /** The bridge's callback: whoever opened the transaction closes it, or marks the client unusable. */
  method EnvelopeWithRollback(c: PgClient, k: Checkout, s: Script, proc: Process) returns (failure: Option<Failure>)
    requires c.listener == k
    modifies c`txOpen, c`acknowledged, proc, k
    ensures failure == EnvelopeError(s) && c.txOpen == LeavesOpen(s)
    ensures c.acknowledged == old(c.acknowledged) + if failure.None? then 1 else 0
    ensures proc.crashed == old(proc.crashed)
    ensures k.connectionFailed == (old(k.connectionFailed) || Fires(s))
    ensures k.unusable == (old(k.unusable) || (failure.Some? && s.rollback.error.Some?))
  {
    failure := RunEnvelope(c, s, proc);
    if failure.Some? {
      var open := c.Execute(s.rollback, false, proc);
      if open.Some? { k.unusable := true; }
    }
  }

  /** `withAttestedClient` around the bridge's callback: connect, listen, attest, run, stop listening,
      release or destroy. Whatever the script, the client goes back to the pool only without a listener,
      without an open transaction unless it came with one and was not attested, and after no error event;
      the process hears every event. The attestation opens no transaction. */
  method CaptureOnWorker(pool: Pool, s: Script, proc: Process) returns (failure: Option<Failure>, client: PgClient?)
    requires pool.Unheard()
    modifies pool, pool.idle, proc
    ensures failure == StageError(true, s) && (client == null <==> s.connect.Some?)
    ensures pool.Unheard() && proc.crashed == old(proc.crashed)
    ensures old(pool.Clean()) ==> pool.Clean()
    ensures client != null ==> client in old(pool.idle) || fresh(client)
    ensures client != null ==>
              (client in pool.idle
               <==> if s.attest.error.Some? then !s.attest.fires
                    else !s.attest.fires && !Fires(s) && (failure.None? || s.rollback.error.None?))
    ensures client != null && client in pool.idle && s.attest.error.None? ==> client.Clean()
    ensures client != null ==>
              client.acknowledged == (if client in old(pool.idle) then old(client.acknowledged) else 0)
                                     + if failure.None? then 1 else 0
    ensures forall c | c in pool.idle && c != client :: c in old(pool.idle) && c.txOpen == old(c.txOpen)
    ensures forall c | c in old(pool.idle) && c != client :: c in pool.idle
  {
    if s.connect.Some? { return s.connect, null; }
    client := pool.Connect();
    var checkout := new Checkout();
    client.listener := checkout;
    client.Emit(s.attest.fires, proc);
    failure := s.attest.error;
    if failure.None? { failure := EnvelopeWithRollback(client, checkout, s, proc); }
    client.listener := null;
    pool.Release(client, checkout.connectionFailed || checkout.unusable);
  }

  /** The direct routes' stage: its own checkout, no listener, and a ROLLBACK whose failure is ignored.
      The client it returns is inside a transaction exactly when the envelope failed, the ROLLBACK failed
      too, and left one open. */
  method CaptureDirect(pool: Pool, s: Script, proc: Process) returns (failure: Option<Failure>, client: PgClient?)
    requires pool.Unheard()
    modifies pool, pool.idle, proc
    ensures failure == StageError(false, s) && (client == null <==> s.connect.Some?)
    ensures pool.Unheard() && proc.crashed == (old(proc.crashed) || (client != null && Fires(s)))
    ensures client != null ==> client in pool.idle && client.txOpen == LeavesOpen(s)
    ensures old(pool.Clean()) ==> (pool.Clean() <==> client == null || !LeavesOpen(s))
    ensures client != null ==> client in old(pool.idle) || fresh(client)
    ensures client != null ==>
              client.acknowledged == (if client in old(pool.idle) then old(client.acknowledged) else 0)
                                     + if failure.None? then 1 else 0
    ensures forall c | c in pool.idle && c != client :: c in old(pool.idle) && c.txOpen == old(c.txOpen)
    ensures forall c | c in old(pool.idle) :: c in pool.idle
  {
    if s.connect.Some? { return s.connect, null; }
    client := pool.Connect();
    failure := RunEnvelope(client, s, proc);
    if failure.Some? {
      var ignored := client.Execute(s.rollback, false, proc);
    }
    pool.Release(client, false);
  }

  /** The reason for which the capture is dropped, if it is: it is logged and counted in every posture. */
  function DropOf(onWorker: bool, s: Script, hasIdentity: bool, eventIsValid: bool, canonicalizes: bool): Option<Drop>
  {
    if !hasIdentity then Some(MissingRequestIdentity)
    else if !eventIsValid then Some(InvalidRuntimeEvent)
    else if !canonicalizes then Some(CanonicalizationFailed)
    else if StageError(onWorker, s).Some? then Some(ClassifyCaptureError(StageError(onWorker, s).value))
    else None
  }

  /** Which drop is reported: that of the first stage that failed, a unique violation told apart. */
  lemma DropsExactly(onWorker: bool, s: Script, hasIdentity: bool, eventIsValid: bool, canonicalizes: bool)
    ensures var d := DropOf(onWorker, s, hasIdentity, eventIsValid, canonicalizes);
            var staged := hasIdentity && eventIsValid && canonicalizes;
            && (d == Some(MissingRequestIdentity) <==> !hasIdentity)
            && (d == Some(InvalidRuntimeEvent) <==> hasIdentity && !eventIsValid)
            && (d == Some(CanonicalizationFailed) <==> hasIdentity && eventIsValid && !canonicalizes)
            && (d == Some(EvidenceIdempotencyConflict) <==>
                  staged && StageError(onWorker, s).Some? && StageError(onWorker, s).value.uniqueViolation)
            && (d == Some(CaptureFailed) <==>
                  staged && StageError(onWorker, s).Some? && !StageError(onWorker, s).value.uniqueViolation)
            && (d == None <==> staged && StageError(onWorker, s).None?)
  {
    hide StageError;
  }

  /** `dropped`: only a strict caller is told, with the original failure where there is one. */
  function Dropped(posture: Posture, reason: Drop, cause: Option<Failure>): Reply
  {
    if posture.BestEffort? then Resolved
    else if cause.Some? then Rejected(Original(cause.value))
    else Rejected(Marker(reason))
  }

  /** The dispatcher: validation, projection, the transaction stage, and one drop policy for every class of
      failure, on a pool in any state. `best_effort` never throws. `strict` returns normally exactly when a
      COMMIT was acknowledged; otherwise it throws the first failure of the transaction stage itself, never
      the ROLLBACK's, or the marker of the earlier stage that dropped the capture. */
  method Dispatch(posture: Posture, onWorker: bool, pool: Pool, s: Script, proc: Process,
                  hasIdentity: bool, eventIsValid: bool, canonicalizes: bool)
    returns (r: Reply, drop: Option<Drop>, ghost committed: bool, ghost client: PgClient?)
    requires pool.Unheard()
    modifies pool, pool.idle, proc
    ensures drop == DropOf(onWorker, s, hasIdentity, eventIsValid, canonicalizes)
    ensures posture.BestEffort? ==> r == Resolved
    ensures posture.Strict? ==> (r == Resolved <==> committed)
    ensures posture.Strict? && hasIdentity && eventIsValid && canonicalizes && !committed ==>
              StageError(onWorker, s).Some? && r == Rejected(Original(StageError(onWorker, s).value))
    ensures posture.Strict? && !(hasIdentity && eventIsValid && canonicalizes) ==>
              drop.Some? && r == Rejected(Marker(drop.value))
    ensures committed <==> drop.None?
    ensures committed ==> client != null
    ensures client != null ==>
              client.acknowledged == (if client in old(pool.idle) then old(client.acknowledged) else 0)
                                     + if committed then 1 else 0
    ensures pool.Unheard() && (onWorker ==> proc.crashed == old(proc.crashed))
    ensures old(pool.Clean()) ==> (pool.Clean() <==> onWorker || client == null || !LeavesOpen(s))
  {
    committed, client := false, null;
    if !hasIdentity {
      return Dropped(posture, MissingRequestIdentity, None), Some(MissingRequestIdentity), false, null;
    }
    if !eventIsValid {
      return Dropped(posture, InvalidRuntimeEvent, None), Some(InvalidRuntimeEvent), false, null;
    }
    if !canonicalizes {
      return Dropped(posture, CanonicalizationFailed, None), Some(CanonicalizationFailed), false, null;
    }
    var failure: Option<Failure>;
    var used: PgClient?;
    if onWorker {
      failure, used := CaptureOnWorker(pool, s, proc);
    } else {
      failure, used := CaptureDirect(pool, s, proc);
    }
    client := used;
    if failure.None? { return Resolved, None, true, client; }
    var reason := ClassifyCaptureError(failure.value);
    return Dropped(posture, reason, failure), Some(reason), false, client;
  }
}
