/**
 * `enqueueExecution` and `createActiveExecutionsQueue` (src/enqueue-execution.ts) over a
 * real registry object: the shared `activeExecutionsCache` is a `MapWithDefault` from keys
 * to tokens, read and written in place exactly where the source reads and writes it.
 *
 * An `Executions` object is one such cache together with every call made through it: all
 * functions wrapped over the same cache share one object, so that they serialise on a
 * common key space. Its methods are the events of `ExecutionProtocol`, each proved to
 * perform that protocol's step and to keep its invariant.
 */
module EnqueueExecution {
  import opened Wrappers
  import opened DefaultMaps
  import opened ExecutionProtocol

  /** `createActiveExecutionsQueue`: an empty cache whose factory gives an already-resolved promise. */
  method CreateActiveExecutionsQueue<K(==,!new)>() returns (q: MapWithDefault<K, Token>)
    ensures fresh(q) && q.Valid()
    ensures q.values == map[] && q.Size() == 0
    ensures forall k :: q.factory(k) == Resolved
  {
    q := new MapWithDefault(_ => Resolved, []);
  }

  class Executions<K(==,!new)> {
    /** The `activeExecutionsCache`, passed in by the caller. */
    const cache: MapWithDefault<K, Token>
    /** Every call made through the cache so far, in call order. */
    var invocations: seq<Invocation<K>>

    function Model(): State<K>
      reads this, cache
    {
      State(cache.values, invocations)
    }

    ghost predicate Valid()
      reads this, cache
    {
      && cache.Valid()
      && (forall k :: cache.factory(k) == Resolved)
      && Inv(Model())
    }

    /** Wrapping functions over a cache made by `createActiveExecutionsQueue`. */
    constructor (cache: MapWithDefault<K, Token>)
      requires cache.Valid() && cache.values == map[]
      requires forall k :: cache.factory(k) == Resolved
      ensures Valid()
      ensures this.cache == cache && invocations == []
    {
      this.cache := cache;
      invocations := [];
      new;
      InitialInv<K>();
    }

    /**
     * A call of a wrapped function whose group picker returned `pick` (lines 22-33).
     * Returns the call's number; its promise `res` is `Result(Model(), id)`.
     */
    method Call(pick: Pick<K>) returns (id: nat)
      requires Valid()
      modifies this, cache
      ensures Valid()
      ensures id == old(|invocations|)
      ensures Model() == CallStep(old(Model()), pick)
      ensures pick.Group? && pick.key !in old(cache.values) ==> cache.order == old(cache.order) + [pick.key]
      ensures pick.HandleDirectly? || pick.key in old(cache.values) ==> cache.order == old(cache.order)
    {
      match pick {
        case HandleDirectly =>
          id := CallDirectly();
        case Group(k) =>
          id := CallOnKey(k);
      }
    }

    /** Line 24: `HANDLE_DIRECTLY` runs `fn` at once, without touching the cache. */
    method CallDirectly() returns (id: nat)
      requires Valid()
      modifies this
      ensures Valid()
      ensures id == old(|invocations|)
      ensures Model() == CallStep(old(Model()), HandleDirectly)
    {
      ghost var before := Model();
      id := |invocations|;
      invocations := invocations + [Invocation(HandleDirectly, Resolved, Running)];
      assert Model() == CallStep(before, HandleDirectly);
      CallPreservesInv(before, HandleDirectly);
    }

    /** Lines 26-32: chain behind the token read with `get(key)`, then register this call's `prom`. */
    method CallOnKey(k: K) returns (id: nat)
      requires Valid()
      modifies this, cache
      ensures Valid()
      ensures id == old(|invocations|)
      ensures Model() == CallStep(old(Model()), Group(k))
      ensures cache.order == if k in old(cache.values) then old(cache.order) else old(cache.order) + [k]
    {
      ghost var before := Model();
      id := |invocations|;
      // The registry as the synthesising `get` leaves it.
      ghost var reg := if k in before.registry then before.registry else before.registry[k := Resolved];
      var found := cache.Get(k, false);
      assert cache.values == reg && found == Some(reg[k]);
      cache.Set(k, Completion(id));
      assert cache.values == reg[k := Completion(id)];
      invocations := invocations + [Invocation(Group(k), found.value, Waiting)];
      assert Model() == CallStep(before, Group(k));
      CallPreservesInv(before, Group(k));
    }

    /** The predecessor has settled and `fn` is invoked (the `then` of line 26). */
    method Start(i: nat)
      requires Valid() && CanStart(Model(), i)
      modifies this
      ensures Valid()
      ensures Model() == StartStep(old(Model()), i)
    {
      ghost var before := Model();
      invocations := invocations[i := invocations[i].(phase := Running)];
      StartPreservesInv(before, i);
    }

    /** `fn` settles with outcome `o`; so does the caller's promise `res`. */
    method Finish(i: nat, o: Outcome)
      requires Valid() && CanFinish(Model(), i)
      modifies this
      ensures Valid()
      ensures Model() == FinishStep(old(Model()), i, o)
    {
      ghost var before := Model();
      invocations := invocations[i := invocations[i].(phase := Finished(o))];
      FinishPreservesInv(before, i, o);
    }

    /**
     * The cleanup callback of lines 27-31: read the cache (with the synthesising `get`,
     * as written) and delete the key only if it still holds this call's own `prom`.
     */
    method Cleanup(i: nat) returns (deleted: bool)
      requires Valid() && CanCleanup(Model(), i)
      modifies this, cache
      ensures Valid()
      ensures Model() == CleanupStep(old(Model()), i)
      ensures deleted <==> old(cache.Has(invocations[i].pick.key)) && old(cache.values)[invocations[i].pick.key] == Completion(i)
      ensures cache.order == if deleted then Without(old(cache.order), old(invocations[i].pick.key)) else old(cache.order)
    {
      ghost var before := Model();
      CleanupKeepsNewerRegistration(before, i);
      CleanupPreservesInv(before, i);
      var k := invocations[i].pick.key;
      var current := cache.Get(k, false);
      assert current == Some(before.registry[k]) && cache.values == before.registry;
      deleted := current == Some(Completion(i));
      if deleted {
        var _ := cache.Delete(k);
      }
      assert cache.values == CleanupStep(before, i).registry;
      invocations := invocations[i := invocations[i].(phase := Cleaned(invocations[i].phase.outcome))];
      assert Model() == CleanupStep(before, i);
    }
  }

  /** Two calls on key 42: the second waits on the first's `prom`, which is registered last. */
  lemma TwoCallsOn42()
    ensures CallStep(CallStep(Initial<int>(), Group(42)), Group(42)) ==
      State(map[42 := Completion(1)], [Invocation(Group(42), Resolved, Waiting), Invocation(Group(42), Completion(0), Waiting)])
  {
    var s1 := CallStep(Initial<int>(), Group(42));
    assert s1 == State(map[42 := Completion(0)], [Invocation(Group(42), Resolved, Waiting)]);
  }

  /** The first call rejects and is cleaned up; a newer registration keeps the key alive. */
  lemma FirstRejects(s: State<int>)
    requires s == State(map[42 := Completion(1)], [Invocation(Group(42), Resolved, Waiting), Invocation(Group(42), Completion(0), Waiting)])
    ensures CanStart(s, 0) && CanFinish(StartStep(s, 0), 0) && CanCleanup(FinishStep(StartStep(s, 0), 0, Rejected), 0)
    ensures CleanupStep(FinishStep(StartStep(s, 0), 0, Rejected), 0) ==
      State(map[42 := Completion(1)], [Invocation(Group(42), Resolved, Cleaned(Rejected)), Invocation(Group(42), Completion(0), Waiting)])
  {
    var t := FinishStep(StartStep(s, 0), 0, Rejected);
    assert t.invocations == [Invocation(Group(42), Resolved, Finished(Rejected)), Invocation(Group(42), Completion(0), Waiting)];
    assert t.registry[42] != Completion(0);
  }

  /** The second call then runs, fulfils, and its cleanup empties the cache. */
  lemma SecondFulfils(s: State<int>)
    requires s == State(map[42 := Completion(1)], [Invocation(Group(42), Resolved, Cleaned(Rejected)), Invocation(Group(42), Completion(0), Waiting)])
    ensures CanStart(s, 1) && CanFinish(StartStep(s, 1), 1) && CanCleanup(FinishStep(StartStep(s, 1), 1, Fulfilled), 1)
    ensures CleanupStep(FinishStep(StartStep(s, 1), 1, Fulfilled), 1) ==
      State(map[], [Invocation(Group(42), Resolved, Cleaned(Rejected)), Invocation(Group(42), Completion(0), Cleaned(Fulfilled))])
  {
    var t := FinishStep(StartStep(s, 1), 1, Fulfilled);
    assert t.invocations == [Invocation(Group(42), Resolved, Cleaned(Rejected)), Invocation(Group(42), Completion(0), Finished(Fulfilled))];
    assert t.registry[42] == Completion(1);
    assert t.registry - {42} == map[];
  }

  /**
   * The enqueue-execution.spec.ts case "should continue when the function throws": two
   * calls on key 42, the first rejects; the second still runs and fulfils, and the cache
   * is empty afterwards.
   */
  method ContinueAfterRejection() returns (first: Option<Outcome>, second: Option<Outcome>, size: nat)
    ensures first == Some(Rejected) && second == Some(Fulfilled) && size == 0
  {
    var cache := CreateActiveExecutionsQueue<int>();
    var queue := new Executions(cache);
    var a := queue.Call(Group(42));
    var b := queue.Call(Group(42));
    TwoCallsOn42();
    FirstRejects(queue.Model());
    queue.Start(a);
    queue.Finish(a, Rejected);
    var _ := queue.Cleanup(a);
    SecondFulfils(queue.Model());
    queue.Start(b);
    queue.Finish(b, Fulfilled);
    var _ := queue.Cleanup(b);
    first, second, size := Result(queue.Model(), a), Result(queue.Model(), b), cache.Size();
  }
}
