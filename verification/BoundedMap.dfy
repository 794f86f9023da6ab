/** `mapWithConcurrency`: a pool of workers that share a cursor. Every turn of every worker is a step,
    and any worker whose call has settled, or that has not called yet, may take the next one. */
module BoundedMap {
  import opened Wrappers

  datatype Outcome<R, E> = Ok(value: R) | Err(error: E)

  datatype Worker = Ready | Calling(index: nat) | Done

  datatype Event<E> = Start(index: nat) | Succeed(index: nat) | Fail(index: nat, error: E)

  /** The shared variables, the workers, and what has happened. */
  datatype State<R, E> = State(
    cursor: nat, failed: bool, firstFailure: Option<E>, out: seq<Option<R>>, workers: seq<Worker>, log: seq<Event<E>>)

  function Initial<R, E>(n: nat, limit: nat): State<R, E>
  {
    State(0, false, None, seq(n, i => None), seq(if limit <= n then limit else n, i => Ready), [])
  }

  /** The next turn of worker `w`: claim and call, or settle the call it made. */
  function Turn<T, R, E>(items: seq<T>, fn: (nat, T) -> Outcome<R, E>, s: State<R, E>, w: nat): State<R, E>
    requires w < |s.workers| && !s.workers[w].Done? && |s.out| == |items|
    requires s.workers[w].Calling? ==> s.workers[w].index < |items|
  {
    match s.workers[w]
    case Ready =>
      if s.failed then s.(workers := s.workers[w := Done])
      else if s.cursor >= |items| then s.(cursor := s.cursor + 1, workers := s.workers[w := Done])
      else s.(cursor := s.cursor + 1, workers := s.workers[w := Calling(s.cursor)], log := s.log + [Start(s.cursor)])
    case Calling(i) =>
      match fn(i, items[i])
      case Ok(r) => s.(out := s.out[i := Some(r)], workers := s.workers[w := Ready], log := s.log + [Succeed(i)])
      case Err(e) =>
        s.(failed := true, firstFailure := if s.failed then s.firstFailure else Some(e),
           workers := s.workers[w := Done], log := s.log + [Fail(i, e)])
  }

  // ---------------------------------------------------------------------------------------
  // What every schedule keeps
  // ---------------------------------------------------------------------------------------

  predicate InFlight(s: State, i: nat)
  {
    exists w | 0 <= w < |s.workers| :: s.workers[w] == Calling(i)
  }

  predicate Failure(s: State, k: nat) { k < |s.log| && s.log[k].Fail? }

  /** The starts in the log are 0, 1, 2, ... in that order. */
  predicate StartsInOrder<E>(log: seq<Event<E>>, started: nat)
  {
    && (forall k | 0 <= k < |log| && log[k].Start? :: log[k].index < started)
    && (forall j, k | 0 <= j < k < |log| && log[j].Start? && log[k].Start? :: log[j].index < log[k].index)
  }

  /** Nothing starts once a call has failed. */
  predicate NoStartAfterFailure<E>(log: seq<Event<E>>)
  {
    forall j, k | 0 <= j < k < |log| && log[j].Fail? :: !log[k].Start?
  }

  ghost predicate IsFirstFailure<E>(log: seq<Event<E>>, k: nat, error: E)
  {
    k < |log| && log[k].Fail? && log[k].error == error && forall j | 0 <= j < k :: !log[j].Fail?
  }

  /** The call that failed did so with the error logged. */
  ghost predicate IsCall<T, R, E>(items: seq<T>, fn: (nat, T) -> Outcome<R, E>, e: Event<E>)
  {
    e.Fail? && e.index < |items| && fn(e.index, items[e.index]) == Err(e.error)
  }

  /** The recorded failure is the first one. */
  ghost predicate FirstFailureRecorded<R, E>(s: State<R, E>)
  {
    && (s.failed <==> s.firstFailure.Some?) && (s.failed <==> exists k: nat :: Failure(s, k))
    && (forall k: nat | Failure(s, k) && (forall j: nat | j < k :: !Failure(s, j)) ::
          s.firstFailure == Some(s.log[k].error))
  }

  ghost predicate PoolInv<T, R, E>(items: seq<T>, fn: (nat, T) -> Outcome<R, E>, s: State<R, E>)
  {
    && |s.out| == |items|
    && (forall w | 0 <= w < |s.workers| && s.workers[w].Calling? ::
          s.workers[w].index < |items| && s.workers[w].index < s.cursor && s.out[s.workers[w].index].None?)
    && (forall v, w | 0 <= v < w < |s.workers| && s.workers[v].Calling? && s.workers[w].Calling? ::
          s.workers[v].index != s.workers[w].index)
    && (forall i | 0 <= i < |items| && s.out[i].Some? :: i < s.cursor && fn(i, items[i]) == Ok(s.out[i].value))
    && (!s.failed ==> forall i | 0 <= i < |items| && i < s.cursor :: s.out[i].Some? || InFlight(s, i))
    && (!s.failed ==> forall w | 0 <= w < |s.workers| && s.workers[w].Done? :: s.cursor >= |items|)
    && (forall k | 0 <= k < |s.log| && s.log[k].Fail? ::
          s.log[k].index < |items| && fn(s.log[k].index, items[s.log[k].index]) == Err(s.log[k].error))
    && StartsInOrder(s.log, if s.cursor <= |items| then s.cursor else |items|)
    && NoStartAfterFailure(s.log) && FirstFailureRecorded(s)
  }

  lemma InitialInv<T, R, E>(items: seq<T>, fn: (nat, T) -> Outcome<R, E>, limit: nat)
    ensures PoolInv(items, fn, Initial(|items|, limit))
  {
  }

  /** Claiming: the index is the next never claimed, and a call starts only while none has failed. */
  lemma ClaimKeeps<T, R, E>(items: seq<T>, fn: (nat, T) -> Outcome<R, E>, s: State<R, E>, w: nat)
    requires PoolInv(items, fn, s) && w < |s.workers| && s.workers[w].Ready?
    ensures PoolInv(items, fn, Turn(items, fn, s, w))
  {
    hide StartsInOrder, NoStartAfterFailure, FirstFailureRecorded;
    var t := Turn(items, fn, s, w);
    assert forall v | 0 <= v < |s.workers| && v != w :: t.workers[v] == s.workers[v];
    FlightKept(items, fn, s, w);
    LogKept(items, fn, s, w);
  }

  lemma FlightKept<T, R, E>(items: seq<T>, fn: (nat, T) -> Outcome<R, E>, s: State<R, E>, w: nat)
    requires PoolInv(items, fn, s) && w < |s.workers| && s.workers[w].Ready?
    ensures var t := Turn(items, fn, s, w);
            && (forall i: nat | InFlight(s, i) :: InFlight(t, i))
            && (!s.failed && s.cursor < |items| ==> InFlight(t, s.cursor))
  {
    hide StartsInOrder, NoStartAfterFailure, FirstFailureRecorded;
    var t := Turn(items, fn, s, w);
    forall i: nat | InFlight(s, i) ensures InFlight(t, i) {
      var v :| 0 <= v < |s.workers| && s.workers[v] == Calling(i);
      assert t.workers[v] == Calling(i);
    }
    if !s.failed && s.cursor < |items| { assert t.workers[w] == Calling(s.cursor); }
  }

  lemma SettleFlight<T, R, E>(items: seq<T>, fn: (nat, T) -> Outcome<R, E>, s: State<R, E>, w: nat)
    requires PoolInv(items, fn, s) && w < |s.workers| && s.workers[w].Calling?
    ensures var t := Turn(items, fn, s, w);
            forall i: nat | InFlight(s, i) && i != s.workers[w].index :: InFlight(t, i)
  {
    hide StartsInOrder, NoStartAfterFailure, FirstFailureRecorded;
    var t := Turn(items, fn, s, w);
    forall i: nat | InFlight(s, i) && i != s.workers[w].index ensures InFlight(t, i) {
      var v :| 0 <= v < |s.workers| && s.workers[v] == Calling(i);
      assert t.workers[v] == Calling(i);
    }
  }

  lemma LogKept<T, R, E>(items: seq<T>, fn: (nat, T) -> Outcome<R, E>, s: State<R, E>, w: nat)
    requires PoolInv(items, fn, s) && w < |s.workers| && !s.workers[w].Done?
    ensures var t := Turn(items, fn, s, w);
            && StartsInOrder(t.log, if t.cursor <= |items| then t.cursor else |items|)
            && NoStartAfterFailure(t.log) && FirstFailureRecorded(t)
  {
    hide Turn, PoolInv, StartsInOrder, NoStartAfterFailure, FirstFailureRecorded;
    StartsKept(items, fn, s, w);
    FailureKept(items, fn, s, w);
  }

  lemma StartsKept<T, R, E>(items: seq<T>, fn: (nat, T) -> Outcome<R, E>, s: State<R, E>, w: nat)
    requires PoolInv(items, fn, s) && w < |s.workers| && !s.workers[w].Done?
    ensures var t := Turn(items, fn, s, w);
            StartsInOrder(t.log, if t.cursor <= |items| then t.cursor else |items|) && NoStartAfterFailure(t.log)
  {
    var t := Turn(items, fn, s, w);
    assert forall k | 0 <= k < |s.log| :: t.log[k] == s.log[k];
    assert forall k: nat :: k < |s.log| && s.log[k].Fail? ==> Failure(s, k);
  }

  lemma FailureKept<T, R, E>(items: seq<T>, fn: (nat, T) -> Outcome<R, E>, s: State<R, E>, w: nat)
    requires PoolInv(items, fn, s) && w < |s.workers| && !s.workers[w].Done?
    ensures FirstFailureRecorded(Turn(items, fn, s, w))
  {
    hide StartsInOrder, NoStartAfterFailure;
    var t := Turn(items, fn, s, w);
    forall k: nat | k < |s.log| ensures Failure(t, k) <==> Failure(s, k) {}
    if |t.log| > |s.log| { assert Failure(t, |s.log|) <==> t.log[|s.log|].Fail?; }
  }

  /** Settling: a success fills its own slot, the first failure is recorded, and its worker stops. */
  lemma SettleKeeps<T, R, E>(items: seq<T>, fn: (nat, T) -> Outcome<R, E>, s: State<R, E>, w: nat)
    requires PoolInv(items, fn, s) && w < |s.workers| && s.workers[w].Calling?
    ensures PoolInv(items, fn, Turn(items, fn, s, w))
  {
    hide StartsInOrder, NoStartAfterFailure, FirstFailureRecorded;
    var t := Turn(items, fn, s, w);
    assert forall v | 0 <= v < |s.workers| && v != w :: t.workers[v] == s.workers[v];
    SettleFlight(items, fn, s, w);
    LogKept(items, fn, s, w);
  }

  lemma TurnKeeps<T, R, E>(items: seq<T>, fn: (nat, T) -> Outcome<R, E>, s: State<R, E>, w: nat)
    requires PoolInv(items, fn, s) && w < |s.workers| && !s.workers[w].Done?
    ensures PoolInv(items, fn, Turn(items, fn, s, w))
    ensures |Turn(items, fn, s, w).workers| == |s.workers|
  {
    hide PoolInv;
    if s.workers[w].Ready? { ClaimKeeps(items, fn, s, w); } else { SettleKeeps(items, fn, s, w); }
  }

  // ---------------------------------------------------------------------------------------
  // Schedules
  // ---------------------------------------------------------------------------------------

  /** The state after the turns of a schedule; a turn of a finished worker is skipped. */
  ghost function Schedule<T, R, E>(items: seq<T>, fn: (nat, T) -> Outcome<R, E>, limit: nat, turns: seq<nat>)
    : (s: State<R, E>)
    ensures PoolInv(items, fn, s) && |s.workers| == if limit <= |items| then limit else |items|
    decreases |turns|
  {
    InitialInv(items, fn, limit);
    if |turns| == 0 then Initial(|items|, limit)
    else
      var s := Schedule(items, fn, limit, turns[..|turns| - 1]);
      var w := turns[|turns| - 1];
      if w >= |s.workers| || s.workers[w].Done? then s
      else (TurnKeeps(items, fn, s, w); Turn(items, fn, s, w))
  }

  function CallingWorkers<R, E>(s: State<R, E>): set<nat>
  {
    set w: nat | w < |s.workers| && s.workers[w].Calling?
  }

  predicate AllDone(s: State) { forall w | 0 <= w < |s.workers| :: s.workers[w].Done? }

  /** In every schedule: each index is started at most once and in order, at most min(limit, n) calls
      are in flight, and none starts after a failure. */
  lemma EverySchedule<T, R, E>(items: seq<T>, fn: (nat, T) -> Outcome<R, E>, limit: nat, turns: seq<nat>)
    ensures var s := Schedule(items, fn, limit, turns);
            && StartsInOrder(s.log, |items|) && NoStartAfterFailure(s.log)
            && |CallingWorkers(s)| <= (if limit <= |items| then limit else |items|)
  {
    var s := Schedule(items, fn, limit, turns);
    hide Schedule;
    assert CallingWorkers(s) <= Below(|s.workers|);
    SubsetSize(CallingWorkers(s), Below(|s.workers|));
    BelowSize(|s.workers|);
  }

  function Below(n: nat): (r: set<nat>)
    ensures forall k: nat :: k in r <==> k < n
  {
    if n == 0 then {} else Below(n - 1) + {n - 1}
  }

  lemma {:induction false} BelowSize(n: nat)
    ensures |Below(n)| == n
  {
    if n > 0 { BelowSize(n - 1); }
  }

  lemma SubsetSize<T>(a: set<T>, b: set<T>)
    requires a <= b
    ensures |a| <= |b|
  {
    assert b == a + (b - a);
  }

  /** A schedule that has run to its end ended well exactly when no call failed, and then every slot
      holds its item's result; otherwise what is thrown is the first failure. */
  lemma EndOfSchedule<T, R, E>(items: seq<T>, fn: (nat, T) -> Outcome<R, E>, limit: nat, turns: seq<nat>)
    requires limit >= 1 && AllDone(Schedule(items, fn, limit, turns))
    ensures var s := Schedule(items, fn, limit, turns);
            && (!s.failed ==> forall i | 0 <= i < |items| :: s.out[i].Some? && fn(i, items[i]) == Ok(s.out[i].value))
            && (s.failed ==> s.firstFailure.Some? && exists k: nat :: IsFirstFailure(s.log, k, s.firstFailure.value))
            && (s.failed <==> exists i | 0 <= i < |items| :: fn(i, items[i]).Err?)
  {
    var s := Schedule(items, fn, limit, turns);
    hide Schedule;
    AtTheEnd(items, fn, s);
    if s.failed { FirstOf(s); }
  }

  lemma AtTheEnd<T, R, E>(items: seq<T>, fn: (nat, T) -> Outcome<R, E>, s: State<R, E>)
    requires PoolInv(items, fn, s) && AllDone(s) && (|items| > 0 ==> |s.workers| >= 1)
    ensures !s.failed ==> forall i | 0 <= i < |items| :: s.out[i].Some? && fn(i, items[i]) == Ok(s.out[i].value)
    ensures s.failed <==> exists i | 0 <= i < |items| :: fn(i, items[i]).Err?
  {
    hide StartsInOrder, NoStartAfterFailure;
    if !s.failed {
      if |items| > 0 { assert s.workers[0].Done?; }
      assert forall i: nat :: !InFlight(s, i);
    } else {
      var k: nat :| Failure(s, k);
      assert fn(s.log[k].index, items[s.log[k].index]).Err?;
    }
  }

  lemma FirstOf<R, E>(s: State<R, E>)
    requires FirstFailureRecorded(s) && s.failed
    ensures s.firstFailure.Some? && exists k: nat :: IsFirstFailure(s.log, k, s.firstFailure.value)
  {
    var k: nat :| Failure(s, k);
    var f := Earliest(s, k);
    forall j: nat | j < f ensures !s.log[j].Fail? { assert !Failure(s, j); }
    assert IsFirstFailure(s.log, f, s.firstFailure.value);
  }

  lemma {:induction false} Earliest<R, E>(s: State<R, E>, k: nat) returns (f: nat)
    requires Failure(s, k)
    ensures Failure(s, f) && forall j: nat | j < f :: !Failure(s, j)
  {
    if j: nat :| j < k && Failure(s, j) { f := Earliest(s, j); } else { f := k; }
  }

  // ---------------------------------------------------------------------------------------
  // The pool itself
  // ---------------------------------------------------------------------------------------

  function Weight(w: Worker): nat
  {
    match w
    case Ready => 1
    case Calling(_) => 2
    case Done => 0
  }

  function Weights(ws: seq<Worker>): nat
  {
    if |ws| == 0 then 0 else Weight(ws[0]) + Weights(ws[1..])
  }

  lemma {:induction false} WeightsUpdate(ws: seq<Worker>, k: nat, w: Worker)
    requires k < |ws|
    ensures Weights(ws[k := w]) == Weights(ws) - Weight(ws[k]) + Weight(w)
  {
    if k == 0 {
      assert ws[0 := w][1..] == ws[1..];
    } else {
      assert ws[k := w][1..] == ws[1..][k - 1 := w];
      WeightsUpdate(ws[1..], k - 1, w);
    }
  }

  /** `mapWithConcurrency` under any scheduling of its workers: it ends, and it returns every item's
      result in the items' order, or throws the error of the first call to fail. `log` is what happened.
      What a call does depends on its place, not on its item alone. */
  method MapWithConcurrency<T, R, E>(items: seq<T>, limit: nat, fn: (nat, T) -> Outcome<R, E>)
    returns (r: Outcome<seq<R>, E>, ghost log: seq<Event<E>>)
    requires limit >= 1
    ensures r.Ok? <==> forall i | 0 <= i < |items| :: fn(i, items[i]).Ok?
    ensures r.Ok? ==> |r.value| == |items| && forall i | 0 <= i < |items| :: fn(i, items[i]) == Ok(r.value[i])
    ensures r.Err? ==> exists k: nat :: IsFirstFailure(log, k, r.error) && IsCall(items, fn, log[k])
    ensures StartsInOrder(log, |items|) && NoStartAfterFailure(log)
  {
    hide PoolInv, Weights, StartsInOrder, NoStartAfterFailure, IsFirstFailure, IsCall;
    var out: seq<Option<R>> := seq(|items|, i => None);
    var cursor, failed := 0, false;
    var firstFailure: Option<E> := None;
    var workers := seq(if limit <= |items| then limit else |items|, i => Ready);
    ghost var s: State<R, E> := Initial(|items|, limit);
    InitialInv(items, fn, limit);
    var live := Below(|workers|);
    while live != {}
      invariant |s.workers| == |workers| == (if limit <= |items| then limit else |items|)
      invariant s.cursor == cursor && s.failed == failed && s.firstFailure == firstFailure && s.out == out
                && s.workers == workers
      invariant PoolInv(items, fn, s)
      invariant forall w: nat :: w in live <==> w < |workers| && !workers[w].Done?
      decreases 3 * (if cursor < |items| then |items| - cursor else 0) + Weights(workers)
    {
      var w: nat :| w in live;
      InBounds(items, fn, s);
      TurnKeeps(items, fn, s, w);
      s := Turn(items, fn, s, w);
      match workers[w] {
        case Ready =>
          if failed {
            WeightsUpdate(workers, w, Done);
            workers := workers[w := Done];
          } else {
            var index := cursor;
            cursor := cursor + 1;
            if index >= |items| {
              WeightsUpdate(workers, w, Done);
              workers := workers[w := Done];
            } else {
              WeightsUpdate(workers, w, Calling(index));
              workers := workers[w := Calling(index)];
            }
          }
        case Calling(index) =>
          match fn(index, items[index]) {
            case Ok(value) =>
              out := out[index := Some(value)];
              WeightsUpdate(workers, w, Ready);
              workers := workers[w := Ready];
            case Err(error) =>
              if !failed { failed, firstFailure := true, Some(error); }
              WeightsUpdate(workers, w, Done);
              workers := workers[w := Done];
          }
      }
      if workers[w].Done? { live := live - {w}; }
    }
    AllEnded(items, fn, s);
    AtTheEnd(items, fn, s);
    log := s.log;
    if failed {
      return Err(firstFailure.value), log;
    }
    return Ok(seq(|items|, i requires 0 <= i < |items| => out[i].value)), log;
  }

  lemma InBounds<T, R, E>(items: seq<T>, fn: (nat, T) -> Outcome<R, E>, s: State<R, E>)
    requires PoolInv(items, fn, s)
    ensures |s.out| == |items|
    ensures forall w | 0 <= w < |s.workers| && s.workers[w].Calling? :: s.workers[w].index < |items|
  {
  }

  lemma AllEnded<T, R, E>(items: seq<T>, fn: (nat, T) -> Outcome<R, E>, s: State<R, E>)
    requires PoolInv(items, fn, s)
    ensures s.failed ==> s.firstFailure.Some?
    ensures s.failed ==> exists k: nat :: IsFirstFailure(s.log, k, s.firstFailure.value) && IsCall(items, fn, s.log[k])
    ensures |s.out| == |items| && NoStartAfterFailure(s.log) && StartsInOrder(s.log, |items|)
  {
    hide NoStartAfterFailure;
    if s.failed {
      FirstOf(s);
      var k: nat :| IsFirstFailure(s.log, k, s.firstFailure.value);
      assert IsCall(items, fn, s.log[k]);
    }
  }
}
