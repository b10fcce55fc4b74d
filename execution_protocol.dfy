/**
 * The per-call protocol of `enqueueExecution` (src/enqueue-execution.ts:21-34) as a
 * discrete-event state machine over the shared registry (`activeExecutionsCache`).
 *
 * A call of the wrapped function reads the registry with the synthesising `get`, chains
 * its own run behind the token it found, and registers its completion promise (`prom`)
 * under its key before it returns. Promise settlement is made explicit as events:
 *   Call     - the wrapped function is called (lines 22-33);
 *   Start    - the predecessor has settled and `fn` is invoked (line 26);
 *   Finish   - `fn` settles, fulfilled or rejected; the caller's promise `res` settles alike;
 *   Cleanup  - the callback of lines 27-31 runs, after which `prom` is settled.
 */
module ExecutionProtocol {
  import opened Wrappers

  /** What the group picker returned: `HANDLE_DIRECTLY` or a key. */
  datatype Pick<K> = HandleDirectly | Group(key: K)

  /**
   * A registry value. `Resolved` is a promise created by the registry's factory
   * (`Promise.resolve()`, src/enqueue-execution.ts:60); `Completion(i)` is the
   * `prom` of invocation `i`.
   */
  datatype Token = Resolved | Completion(id: nat)

  /** How `fn` settled. */
  datatype Outcome = Fulfilled | Rejected

  datatype Phase = Waiting | Running | Finished(outcome: Outcome) | Cleaned(outcome: Outcome)

  /** One call of a wrapped function: its pick, the token it waits on, and how far it got. */
  datatype Invocation<K> = Invocation(pick: Pick<K>, pred: Token, phase: Phase)

  /** The registry and every invocation so far; invocation `i` is the i-th call. */
  datatype State<K> = State(registry: map<K, Token>, invocations: seq<Invocation<K>>)

  datatype Event<K> = Call(pick: Pick<K>) | Start(id: nat) | Finish(id: nat, outcome: Outcome) | Cleanup(id: nat)

  function Initial<K>(): State<K> {
    State(map[], [])
  }

  /** Invocation `i` is queued and its `prom` has not settled yet. */
  predicate Pending<K>(s: State<K>, i: nat) {
    i < |s.invocations| && s.invocations[i].pick.Group? && !s.invocations[i].phase.Cleaned?
  }

  /** `fn` has been invoked for invocation `i`. */
  predicate Started<K>(s: State<K>, i: nat) {
    i < |s.invocations| && !s.invocations[i].phase.Waiting?
  }

  /** `fn` has been invoked for `i` and its completion promise has not settled: it holds its key. */
  predicate Occupying<K>(s: State<K>, i: nat) {
    i < |s.invocations| && (s.invocations[i].phase.Running? || s.invocations[i].phase.Finished?)
  }

  /** A token has settled: a factory promise always, a `prom` once its cleanup has run. */
  predicate IsSettled<K>(s: State<K>, t: Token) {
    t.Resolved? || (t.id < |s.invocations| && s.invocations[t.id].phase.Cleaned?)
  }

  /** Lines 22-33. A bypassed call runs `fn` at once and leaves the registry alone. */
  function CallStep<K>(s: State<K>, pick: Pick<K>): (r: State<K>)
    ensures |r.invocations| == |s.invocations| + 1
    ensures r.invocations[..|s.invocations|] == s.invocations
    ensures pick.HandleDirectly? ==>
      r.registry == s.registry && r.invocations[|s.invocations|] == Invocation(pick, Resolved, Running)
    ensures pick.Group? ==>
      && r.registry == s.registry[pick.key := Completion(|s.invocations|)]
      && r.invocations[|s.invocations|].phase == Waiting
      && r.invocations[|s.invocations|].pred == if pick.key in s.registry then s.registry[pick.key] else Resolved
  {
    match pick
    case HandleDirectly => State(s.registry, s.invocations + [Invocation(pick, Resolved, Running)])
    case Group(k) =>
      // `activeExecutionsCache.get(key)` synthesises a resolved promise for an absent key ...
      var reg := if k in s.registry then s.registry else s.registry[k := Resolved];
      // ... and `activeExecutionsCache.set(key, prom)` then replaces it.
      State(reg[k := Completion(|s.invocations|)], s.invocations + [Invocation(pick, reg[k], Waiting)])
  }

  /** The predecessor of queued invocation `i` has settled and `fn` has not been invoked yet. */
  predicate CanStart<K>(s: State<K>, i: nat) {
    i < |s.invocations| && s.invocations[i].phase.Waiting? && IsSettled(s, s.invocations[i].pred)
  }

  function StartStep<K>(s: State<K>, i: nat): State<K>
    requires CanStart(s, i)
  {
    s.(invocations := s.invocations[i := s.invocations[i].(phase := Running)])
  }

  predicate CanFinish<K>(s: State<K>, i: nat) {
    i < |s.invocations| && s.invocations[i].phase.Running?
  }

  function FinishStep<K>(s: State<K>, i: nat, o: Outcome): State<K>
    requires CanFinish(s, i)
  {
    s.(invocations := s.invocations[i := s.invocations[i].(phase := Finished(o))])
  }

  /** `res.catch(() => {})` settles whatever `fn` did, so the callback may run after either outcome. */
  predicate CanCleanup<K>(s: State<K>, i: nat) {
    i < |s.invocations| && s.invocations[i].pick.Group? && s.invocations[i].phase.Finished?
  }

  /**
   * Lines 27-31: `activeExecutionsCache.get(key)` (the synthesising read, as written)
   * is compared with this invocation's own `prom`; only on a match is the key deleted.
   */
  function CleanupStep<K>(s: State<K>, i: nat): State<K>
    requires CanCleanup(s, i)
  {
    var inv := s.invocations[i];
    var k := inv.pick.key;
    var reg := if k in s.registry then s.registry else s.registry[k := Resolved];
    var reg' := if reg[k] == Completion(i) then reg - {k} else reg;
    State(reg', s.invocations[i := inv.(phase := Cleaned(inv.phase.outcome))])
  }

  /** The state after event `e`, or `None` when the runtime cannot produce `e` in `s`. */
  function Step<K>(s: State<K>, e: Event<K>): Option<State<K>> {
    match e
    case Call(pick) => Some(CallStep(s, pick))
    case Start(i) => if CanStart(s, i) then Some(StartStep(s, i)) else None
    case Finish(i, o) => if CanFinish(s, i) then Some(FinishStep(s, i, o)) else None
    case Cleanup(i) => if CanCleanup(s, i) then Some(CleanupStep(s, i)) else None
  }

  function Run<K>(s: State<K>, events: seq<Event<K>>): Option<State<K>>
    decreases |events|
  {
    if events == [] then Some(s)
    else match Step(s, events[0])
      case None => None
      case Some(t) => Run(t, events[1..])
  }

  /** Every registered key holds the `prom` of the latest call on that key, not yet settled. */
  ghost predicate RegistryHoldsLatest<K>(s: State<K>) {
    forall k :: k in s.registry ==>
      && s.registry[k].Completion?
      && Pending(s, s.registry[k].id)
      && s.invocations[s.registry[k].id].pick == Group(k)
      && forall j :: s.registry[k].id < j < |s.invocations| ==> s.invocations[j].pick != Group(k)
  }

  /** Every queued call whose `prom` has not settled has its key registered. */
  ghost predicate PendingIsRegistered<K>(s: State<K>) {
    forall i: nat :: Pending(s, i) ==> s.invocations[i].pick.key in s.registry
  }

  /** A call waits on an earlier call's `prom` ... */
  ghost predicate PredecessorIsEarlier<K>(s: State<K>) {
    forall i :: 0 <= i < |s.invocations| && s.invocations[i].pred.Completion? ==> s.invocations[i].pred.id < i
  }

  /** ... namely on the latest earlier call on the same key. */
  ghost predicate PredecessorIsLatestBefore<K>(s: State<K>) {
    forall i, j :: 0 <= j < i < |s.invocations| && s.invocations[i].pred == Completion(j) ==>
      && s.invocations[j].pick == s.invocations[i].pick
      && forall m :: j < m < i ==> s.invocations[m].pick != s.invocations[i].pick
  }

  /** A call that found its key absent (and waits on a factory promise) came after every earlier call on its key settled. */
  ghost predicate FactoryTokenMeansIdle<K>(s: State<K>) {
    forall a, b ::
      0 <= a < b < |s.invocations| && s.invocations[b].pick.Group? && s.invocations[b].pred.Resolved?
      && s.invocations[a].pick == s.invocations[b].pick
      ==> s.invocations[a].phase.Cleaned?
  }

  /** Once `fn` has been invoked for a queued call, every earlier call on its key has settled. */
  ghost predicate StartedMeansEarlierSettled<K>(s: State<K>) {
    forall a, b ::
      0 <= a < b < |s.invocations| && s.invocations[b].pick.Group? && !s.invocations[b].phase.Waiting?
      && s.invocations[a].pick == s.invocations[b].pick
      ==> s.invocations[a].phase.Cleaned?
  }

  /** A bypassed call never waits and never reaches the cleanup callback. */
  ghost predicate BypassNeverQueued<K>(s: State<K>) {
    forall i :: 0 <= i < |s.invocations| && s.invocations[i].pick.HandleDirectly? ==>
      !s.invocations[i].phase.Waiting? && !s.invocations[i].phase.Cleaned?
  }

  /** The protocol invariant. */
  ghost predicate Inv<K>(s: State<K>) {
    && RegistryHoldsLatest(s)
    && PendingIsRegistered(s)
    && PredecessorIsEarlier(s)
    && PredecessorIsLatestBefore(s)
    && FactoryTokenMeansIdle(s)
    && StartedMeansEarlierSettled(s)
    && BypassNeverQueued(s)
  }

  /** What the caller's promise `res` has settled to, if anything. */
  function Result<K>(s: State<K>, i: nat): Option<Outcome> {
    if i < |s.invocations| && (s.invocations[i].phase.Finished? || s.invocations[i].phase.Cleaned?)
    then Some(s.invocations[i].phase.outcome)
    else None
  }

  lemma InitialInv<K>()
    ensures Inv(Initial<K>())
  {
  }

  lemma CallPreservesInv<K>(s: State<K>, pick: Pick<K>)
    requires Inv(s)
    ensures Inv(CallStep(s, pick))
  {
    CallKeepsRegistry(s, pick);
    CallKeepsPredecessors(s, pick);
    CallKeepsFactoryTokenMeansIdle(s, pick);
    var r := CallStep(s, pick);
    assert forall i :: 0 <= i < |s.invocations| ==> r.invocations[i] == s.invocations[i];
  }

  lemma CallKeepsRegistry<K>(s: State<K>, pick: Pick<K>)
    requires RegistryHoldsLatest(s) && PendingIsRegistered(s)
    ensures RegistryHoldsLatest(CallStep(s, pick)) && PendingIsRegistered(CallStep(s, pick))
  {
    var n := |s.invocations|;
    var r := CallStep(s, pick);
    assert forall i :: 0 <= i < n ==> r.invocations[i] == s.invocations[i];
    forall k | k in r.registry
      ensures r.registry[k].Completion? && Pending(r, r.registry[k].id)
      ensures r.invocations[r.registry[k].id].pick == Group(k)
      ensures forall j :: r.registry[k].id < j < |r.invocations| ==> r.invocations[j].pick != Group(k)
    {
      if pick != Group(k) {
        assert k in s.registry && r.registry[k] == s.registry[k];
        assert Pending(s, s.registry[k].id);
      }
    }
    forall i: nat | Pending(r, i) ensures r.invocations[i].pick.key in r.registry {
      if i < n {
        assert Pending(s, i);
      }
    }
  }

  lemma CallKeepsPredecessors<K>(s: State<K>, pick: Pick<K>)
    requires RegistryHoldsLatest(s) && PredecessorIsEarlier(s) && PredecessorIsLatestBefore(s)
    ensures PredecessorIsEarlier(CallStep(s, pick)) && PredecessorIsLatestBefore(CallStep(s, pick))
  {
    var n := |s.invocations|;
    var r := CallStep(s, pick);
    assert forall i :: 0 <= i < n ==> r.invocations[i] == s.invocations[i];
    if pick.Group? && pick.key in s.registry {
      assert Pending(s, s.registry[pick.key].id);
    }
  }

  lemma CallKeepsFactoryTokenMeansIdle<K>(s: State<K>, pick: Pick<K>)
    requires RegistryHoldsLatest(s) && PendingIsRegistered(s) && FactoryTokenMeansIdle(s)
    ensures FactoryTokenMeansIdle(CallStep(s, pick))
  {
    var n := |s.invocations|;
    var r := CallStep(s, pick);
    assert forall i :: 0 <= i < n ==> r.invocations[i] == s.invocations[i];
    if pick.Group? && pick.key !in s.registry {
      assert r.invocations[n].pred == Resolved;
    }
    forall a, b |
      0 <= a < b < |r.invocations| && r.invocations[b].pick.Group? && r.invocations[b].pred.Resolved?
      && r.invocations[a].pick == r.invocations[b].pick
      ensures r.invocations[a].phase.Cleaned?
    {
      if b == n {
        assert pick.key !in s.registry;
        assert !Pending(s, a);
      }
    }
  }

  lemma StartPreservesInv<K>(s: State<K>, i: nat)
    requires Inv(s) && CanStart(s, i)
    ensures Inv(StartStep(s, i))
  {
    var r := StartStep(s, i);
    assert SameShape(s, r);
    SameShapeKeepsRegistry(s, r);
    SameShapeKeepsPredecessors(s, r);
    StartKeepsStartedMeansEarlierSettled(s, i);
  }

  /** Two states that agree on the registry, on every call's pick and token, and on which calls have settled. */
  ghost predicate SameShape<K>(s: State<K>, r: State<K>) {
    && r.registry == s.registry
    && |r.invocations| == |s.invocations|
    && forall a :: 0 <= a < |s.invocations| ==>
         && r.invocations[a].pick == s.invocations[a].pick
         && r.invocations[a].pred == s.invocations[a].pred
         && (r.invocations[a].phase.Cleaned? <==> s.invocations[a].phase.Cleaned?)
  }

  lemma SameShapeKeepsRegistry<K>(s: State<K>, r: State<K>)
    requires SameShape(s, r) && RegistryHoldsLatest(s) && PendingIsRegistered(s)
    ensures RegistryHoldsLatest(r) && PendingIsRegistered(r)
  {
    assert forall a: nat :: Pending(r, a) <==> Pending(s, a);
  }

  lemma SameShapeKeepsPredecessors<K>(s: State<K>, r: State<K>)
    requires SameShape(s, r) && PredecessorIsEarlier(s) && PredecessorIsLatestBefore(s) && FactoryTokenMeansIdle(s)
    ensures PredecessorIsEarlier(r) && PredecessorIsLatestBefore(r) && FactoryTokenMeansIdle(r)
  {
  }

  lemma StartKeepsStartedMeansEarlierSettled<K>(s: State<K>, i: nat)
    requires PredecessorIsEarlier(s) && PredecessorIsLatestBefore(s)
    requires FactoryTokenMeansIdle(s) && StartedMeansEarlierSettled(s) && BypassNeverQueued(s)
    requires CanStart(s, i)
    ensures StartedMeansEarlierSettled(StartStep(s, i))
  {
    var inv := s.invocations;
    forall a | 0 <= a < i && inv[a].pick == inv[i].pick
      ensures inv[a].phase.Cleaned?
    {
      if inv[i].pred.Completion? {
        var j := inv[i].pred.id;
        if a < j {
          assert !inv[j].phase.Waiting?;
        }
      }
    }
  }

  lemma FinishPreservesInv<K>(s: State<K>, i: nat, o: Outcome)
    requires Inv(s) && CanFinish(s, i)
    ensures Inv(FinishStep(s, i, o))
  {
    var r := FinishStep(s, i, o);
    assert SameShape(s, r);
    SameShapeKeepsRegistry(s, r);
    SameShapeKeepsPredecessors(s, r);
  }

  lemma CleanupPreservesInv<K>(s: State<K>, i: nat)
    requires Inv(s) && CanCleanup(s, i)
    ensures Inv(CleanupStep(s, i))
  {
    assert Pending(s, i);
    CleanupKeepsRegistryHoldsLatest(s, i);
    CleanupKeepsPendingIsRegistered(s, i);
    CleanupKeepsOrder(s, i);
  }

  lemma CleanupKeepsOrder<K>(s: State<K>, i: nat)
    requires PredecessorIsEarlier(s) && PredecessorIsLatestBefore(s) && FactoryTokenMeansIdle(s)
    requires StartedMeansEarlierSettled(s) && BypassNeverQueued(s)
    requires CanCleanup(s, i)
    ensures var r := CleanupStep(s, i);
      && PredecessorIsEarlier(r) && PredecessorIsLatestBefore(r) && FactoryTokenMeansIdle(r)
      && StartedMeansEarlierSettled(r) && BypassNeverQueued(r)
  {
    var r := CleanupStep(s, i);
    assert |r.invocations| == |s.invocations|;
    assert forall a :: 0 <= a < |s.invocations| ==>
      && r.invocations[a].pick == s.invocations[a].pick
      && r.invocations[a].pred == s.invocations[a].pred
      && (r.invocations[a].phase.Waiting? <==> s.invocations[a].phase.Waiting?)
      && (s.invocations[a].phase.Cleaned? ==> r.invocations[a].phase.Cleaned?)
      && (r.invocations[a].phase.Cleaned? ==> s.invocations[a].phase.Cleaned? || a == i);
  }

  lemma CleanupKeepsRegistryHoldsLatest<K>(s: State<K>, i: nat)
    requires RegistryHoldsLatest(s) && PendingIsRegistered(s) && CanCleanup(s, i)
    ensures RegistryHoldsLatest(CleanupStep(s, i))
  {
    var k := s.invocations[i].pick.key;
    var r := CleanupStep(s, i);
    assert Pending(s, i);
    forall k' | k' in r.registry
      ensures r.registry[k'].Completion? && Pending(r, r.registry[k'].id)
    {
      assert r.registry[k'] == s.registry[k'];
      assert Pending(s, s.registry[k'].id);
    }
  }

  lemma CleanupKeepsPendingIsRegistered<K>(s: State<K>, i: nat)
    requires RegistryHoldsLatest(s) && PendingIsRegistered(s) && StartedMeansEarlierSettled(s)
    requires CanCleanup(s, i)
    ensures PendingIsRegistered(CleanupStep(s, i))
  {
    var k := s.invocations[i].pick.key;
    var r := CleanupStep(s, i);
    assert Pending(s, i);
    assert forall a :: 0 <= a < i && s.invocations[a].pick == Group(k) ==> s.invocations[a].phase.Cleaned?;
    forall m: nat | Pending(r, m) ensures r.invocations[m].pick.key in r.registry {
      assert Pending(s, m) && m != i;
    }
  }

  lemma StepPreservesInv<K>(s: State<K>, e: Event<K>)
    requires Inv(s) && Step(s, e).Some?
    ensures Inv(Step(s, e).value)
  {
    match e
    case Call(pick) => CallPreservesInv(s, pick);
    case Start(i) => StartPreservesInv(s, i);
    case Finish(i, o) => FinishPreservesInv(s, i, o);
    case Cleanup(i) => CleanupPreservesInv(s, i);
  }

  lemma {:induction false} RunPreservesInv<K>(s: State<K>, events: seq<Event<K>>)
    requires Inv(s) && Run(s, events).Some?
    ensures Inv(Run(s, events).value)
    decreases |events|
  {
    if events != [] {
      StepPreservesInv(s, events[0]);
      RunPreservesInv(Step(s, events[0]).value, events[1..]);
    }
  }

  /** The states the runtime can reach from an empty registry. */
  ghost predicate Reachable<K(!new)>(s: State<K>) {
    exists events :: Run(Initial(), events) == Some(s)
  }

  lemma ReachableInv<K(!new)>(s: State<K>)
    requires Reachable(s)
    ensures Inv(s)
  {
    var events :| Run(Initial(), events) == Some(s);
    InitialInv<K>();
    RunPreservesInv(Initial(), events);
  }

  /** The registry holds `k` exactly while some call on `k` has an unsettled `prom`. */
  lemma RegistryTracksPending<K>(s: State<K>, k: K)
    requires Inv(s)
    ensures k in s.registry <==> exists i: nat :: Pending(s, i) && s.invocations[i].pick == Group(k)
  {
    if k in s.registry {
      var i := s.registry[k].id;
      assert Pending(s, i) && s.invocations[i].pick == Group(k);
    }
  }

  /** Once every queued call has settled, the registry is empty (`map.size` is 0). */
  lemma QuiescentRegistryIsEmpty<K>(s: State<K>)
    requires Inv(s)
    requires forall i: nat :: !Pending(s, i)
    ensures s.registry == map[]
  {
    forall k ensures k !in s.registry {
      RegistryTracksPending(s, k);
    }
    assert s.registry.Keys == {};
  }

  /**
   * A waiting call may start exactly when every earlier call on its key has settled:
   * it waits on nothing under another key and on nothing later than itself.
   */
  lemma CanStartIff<K>(s: State<K>, i: nat)
    requires Inv(s)
    requires i < |s.invocations| && s.invocations[i].phase.Waiting?
    ensures CanStart(s, i) <==>
      forall a :: 0 <= a < i && s.invocations[a].pick == s.invocations[i].pick ==> s.invocations[a].phase.Cleaned?
  {
    var inv := s.invocations;
    if CanStart(s, i) {
      forall a | 0 <= a < i && inv[a].pick == inv[i].pick
        ensures inv[a].phase.Cleaned?
      {
        if inv[i].pred.Completion? {
          var j := inv[i].pred.id;
          if a < j {
            assert !inv[j].phase.Waiting?;
          }
        }
      }
    }
  }

  /** Calls on one key start in call order: a started call had every earlier call on its key started and settled. */
  lemma StartsInCallOrder<K>(s: State<K>, a: nat, b: nat)
    requires Inv(s)
    requires a < b < |s.invocations| && s.invocations[b].pick.Group? && s.invocations[a].pick == s.invocations[b].pick
    requires Started(s, b)
    ensures Started(s, a) && s.invocations[a].phase.Cleaned?
  {
  }

  /** At most one call per key is between the start of `fn` and the settling of its `prom`. */
  lemma AtMostOneOccupying<K>(s: State<K>, i: nat, j: nat)
    requires Inv(s)
    requires i < |s.invocations| && j < |s.invocations| && i != j
    requires s.invocations[i].pick.Group? && s.invocations[i].pick == s.invocations[j].pick
    ensures !(Occupying(s, i) && Occupying(s, j))
  {
    if i < j {
      if Occupying(s, j) { assert s.invocations[i].phase.Cleaned?; }
    } else {
      if Occupying(s, i) { assert s.invocations[j].phase.Cleaned?; }
    }
  }

  /**
   * The cleanup of a call never synthesises an entry (its key is still registered), and it
   * deletes the key only when the registered token is its own `prom`: a later call's
   * registration survives.
   */
  lemma CleanupKeepsNewerRegistration<K>(s: State<K>, i: nat)
    requires Inv(s) && CanCleanup(s, i)
    ensures s.invocations[i].pick.key in s.registry
    ensures var k := s.invocations[i].pick.key;
      CleanupStep(s, i).registry == if s.registry[k] == Completion(i) then s.registry - {k} else s.registry
    ensures forall j :: i < j < |s.invocations| && s.invocations[j].pick == s.invocations[i].pick ==>
      var k := s.invocations[i].pick.key;
      k in CleanupStep(s, i).registry && CleanupStep(s, i).registry[k] == s.registry[k] != Completion(i)
  {
    assert Pending(s, i);
  }

  /**
   * The earliest unsettled call on a key can always take its next step, whether earlier
   * calls on that key fulfilled or rejected: a failure never blocks the queue.
   */
  lemma EarliestPendingCanProceed<K>(s: State<K>, i: nat)
    requires Inv(s) && Pending(s, i)
    requires forall a :: 0 <= a < i && s.invocations[a].pick == s.invocations[i].pick ==> s.invocations[a].phase.Cleaned?
    ensures CanStart(s, i) || CanFinish(s, i) || CanCleanup(s, i)
  {
    if s.invocations[i].phase.Waiting? {
      CanStartIff(s, i);
    }
  }

  /** A successor of a rejected call may start as soon as that call's cleanup has run. */
  lemma RejectionDoesNotBlockSuccessor<K>(s: State<K>, i: nat, j: nat)
    requires Inv(s) && CanCleanup(s, i) && s.invocations[i].phase == Finished(Rejected)
    requires j < |s.invocations| && s.invocations[j].pred == Completion(i) && s.invocations[j].phase.Waiting?
    ensures CanStart(CleanupStep(s, i), j)
  {
  }

  /** A bypassed call runs at once and changes neither the registry nor whether any other call may start. */
  lemma BypassLeavesQueueAlone<K>(s: State<K>, i: nat)
    requires i < |s.invocations|
    ensures CallStep(s, HandleDirectly).registry == s.registry
    ensures CanFinish(CallStep(s, HandleDirectly), |s.invocations|)
    ensures CanStart(CallStep(s, HandleDirectly), i) == CanStart(s, i)
  {
    var r := CallStep(s, HandleDirectly);
    assert forall j :: 0 <= j < |s.invocations| ==> r.invocations[j] == s.invocations[j];
  }

  /** Once the caller's promise has settled, no later event changes what it settled to. */
  lemma StepKeepsResult<K>(s: State<K>, e: Event<K>, i: nat)
    requires Result(s, i).Some? && Step(s, e).Some?
    ensures Result(Step(s, e).value, i) == Result(s, i)
  {
    if e.Call? {
      assert CallStep(s, e.pick).invocations[i] == s.invocations[i];
    }
  }

  /** The caller's promise settles with exactly the outcome of `fn`. */
  lemma FinishSetsResult<K>(s: State<K>, i: nat, o: Outcome)
    requires CanFinish(s, i)
    ensures Result(s, i) == None && Result(FinishStep(s, i, o), i) == Some(o)
  {
  }

  /**
   * The enqueue-execution.spec.ts case "should not wait for functions in other groups":
   * after calls on 42, 42 and 69, the first and third may start and the second may not.
   */
  lemma OtherGroupsDoNotWait()
    ensures Run(Initial(), [Call(Group(42)), Call(Group(42)), Call(Group(69))]).Some?
    ensures var s := Run(Initial(), [Call(Group(42)), Call(Group(42)), Call(Group(69))]).value;
      CanStart(s, 0) && !CanStart(s, 1) && CanStart(s, 2)
  {
    var s0: State<int> := Initial();
    var s1 := CallStep(s0, Group(42));
    var s2 := CallStep(s1, Group(42));
    var s3 := CallStep(s2, Group(69));
    assert Run(s3, []) == Some(s3);
    assert Run(s2, [Call(Group(69))]) == Some(s3);
    assert [Call(Group(42)), Call(Group(69))][1..] == [Call(Group(69))];
    assert Run(s1, [Call(Group(42)), Call(Group(69))]) == Some(s3);
    assert [Call(Group(42)), Call(Group(42)), Call(Group(69))][1..] == [Call(Group(42)), Call(Group(69))];
  }
}
