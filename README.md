# express-utils in Dafny

A model of the four self-contained components of the `express-utils` package, with
proofs of what each promises:

- `MapWithDefault` — a JavaScript `Map` whose `get` creates a missing entry with a
  factory unless asked for a strict read (`DefaultMaps`, `map_with_default.dfy`).
- `enqueueExecution` / `createActiveExecutionsQueue` — a wrapper that runs the calls
  sharing a group key one at a time, through a shared cache of completion promises
  (`ExecutionProtocol`, `execution_protocol.dfy`: the protocol as a state machine with
  its invariant; `EnqueueExecution`, `enqueue_execution.dfy`: the same protocol on a
  real `MapWithDefault` cache object).
- `HttpError` — status-code extraction, `fromError`, the shortcuts and the decision of
  the Express error handler (`HttpErrors`, `http_error.dfy`).
- `assertUserHasScopes` — argument normalisation and the 401 / `next` / 403 decision of
  the returned middleware (`Scopes`, `scopes.dfy`).

`wrappers.dfy` holds the `Option` type used for JavaScript's `undefined`.

## How the serializer is modelled

Promises and their timing are replaced by explicit events. The registry is a
`map<K, Token>`, where a token is either a promise made by the cache's factory
(`Resolved`, always settled) or the completion promise `prom` of call `i`
(`Completion(i)`). Each call is a record: its pick, the token it waits on, and a phase
(`Waiting`, `Running`, `Finished(outcome)`, `Cleaned(outcome)`). The events are:

- `Call`: the wrapped function is called;
- `Start`: its predecessor has settled and `fn` runs;
- `Finish`: `fn` fulfils or rejects;
- `Cleanup`: the callback that may delete the key runs, after which `prom` has settled.

The runtime fires `Start`, `Finish` and `Cleanup` only when they are enabled, so their
enabling conditions are the `requires` of the class methods. Every state reachable from
an empty cache satisfies `ExecutionProtocol.Inv`, and the ordering properties follow
from it.

All functions wrapped over one cache form a single `Executions` object. It holds the
shared `MapWithDefault` (passed in, as `activeExecutionsCache` is) and every call made
through it. The group picker is user code: `Call` receives its result. The default
picker, `() => undefined`, is the case where every call passes the same key.

Two points where the code is followed exactly as written:

- The code serialises on ONE key per call: the picker's result is used directly as a
  `Map` key (src/enqueue-execution.ts:22-32), so a returned array is one key, compared
  by identity. The tests at src/enqueue-execution.spec.ts:134-216 expect calls to wait
  on each element of an array of keys. The code performs no such join, so none is
  modelled.
- The cleanup callback reads the cache with the synthesising `get(key)`
  (src/enqueue-execution.ts:28), not a strict read. `CleanupStep` models it as written.
  `CleanupKeepsNewerRegistration` proves the key is always present at that point, so
  no entry is ever synthesised there.

## Model

| member | source | states |
|---|---|---|
| DefaultMaps.Without | src/MapWithDefault.ts:2 | Taking a key out of the iteration order keeps exactly the other keys; an absent key leaves the order as it is |
| DefaultMaps.WithoutAppend | src/MapWithDefault.ts:2 | Taking a key out works piecewise over concatenation, so the remaining keys keep their relative order |
| DefaultMaps.WithoutAt | src/MapWithDefault.ts:2 | Deleting the key at position `j` of the order closes the gap: the keys before `j`, then the keys after it |
| DefaultMaps.WithoutDistinct | src/MapWithDefault.ts:2 | Deleting keeps the order free of duplicates and shortens it by one exactly when the key was there |
| DefaultMaps.Insert | src/MapWithDefault.ts:2 | `Map.set` keeps the map well formed; a new key is appended to the iteration order, an existing key keeps its place |
| DefaultMaps.Remove | src/MapWithDefault.ts:2 | `Map.delete` removes the key from the entries, keeps every other entry and its value, and takes the key out of the iteration order, leaving the others in place; the size drops by one exactly when the key was present |
| DefaultMaps.Items | src/MapWithDefault.ts:2 | Iteration visits one pair per entry, in insertion order, with the stored values |
| DefaultMaps.ItemsAfterRemove | src/MapWithDefault.ts:2 | After deleting the key at position `j`, iteration visits the other pairs in their old order with their old values |
| DefaultMaps.ItemsAfterInsertNew | src/MapWithDefault.ts:9-11 | A newly set or synthesised key is visited after all older keys |
| DefaultMaps.ItemsAfterOverwrite | src/MapWithDefault.ts:2 | Overwriting a key keeps the iteration order and changes only that key's value |
| DefaultMaps.FromPairs | src/MapWithDefault.ts:3 | The pairs set in turn give a well-formed map; its keys and values are stated by `FromPairsKeys` and `FromPairsLookup` |
| DefaultMaps.FromPairsKeys | src/MapWithDefault.ts:3 | The prefilled map holds a key exactly when some prefill pair has it |
| DefaultMaps.FromPairsLookup | src/MapWithDefault.ts:3 | A prefilled key holds the value of its last pair |
| DefaultMaps.MapWithDefault.constructor | src/MapWithDefault.ts:3 | The factory is stored and the map starts as the prefill pairs set in turn |
| DefaultMaps.MapWithDefault.Has | src/MapWithDefault.ts:2 | No ensures of its own: `has` is presence of an entry. `Get` and `Delete` state their results through it, and `StoredUndefinedIsReturned` shows a key set to `undefined` is present |
| DefaultMaps.MapWithDefault.Size | src/MapWithDefault.ts:2 | No ensures of its own: `size` is the length of the order, which well-formedness ties to the number of entries. `Get` states it grows by one on a synthesised entry, `Remove` that it drops by one on a delete |
| DefaultMaps.MapWithDefault.Get | src/MapWithDefault.ts:7-12 | A present key returns its stored value and changes nothing. An absent key under a strict read returns `undefined` and changes nothing. Otherwise `factory(key)` is stored, appended to the order, returned, and the size grows by one |
| DefaultMaps.MapWithDefault.Set | src/MapWithDefault.ts:2 | The new state is `Insert` of the old one |
| DefaultMaps.MapWithDefault.Delete | src/MapWithDefault.ts:2 | The new state is `Remove` of the old one; returns whether the key was present |
| DefaultMaps.MapWithDefault.Pairs | src/MapWithDefault.ts:2 | Iteration yields exactly `Items` of the state: one pair per entry, in insertion order, with the stored values, `size` of them |
| DefaultMaps.DeleteThenGet | src/MapWithDefault.ts:7-12 | After `delete(k)`, `get(k)` stores and returns a fresh `factory(k)` and nothing else changes |
| DefaultMaps.RemoveThenInsert | src/MapWithDefault.ts:2 | Setting a key again after deleting it stores the new value and leaves every other entry as it was |
| DefaultMaps.StoredUndefinedIsReturned | src/MapWithDefault.ts:8 | A key set to `undefined` is present and `get` returns it without calling the factory |
| DefaultMaps.SetThenSynthesise | src/MapWithDefault.spec.ts:51-58 | Setting `foo` and then adding `baz` visits `foo` first, then `baz` |
| DefaultMaps.IterationOrder | src/MapWithDefault.spec.ts:51-58 | A set entry and a later synthesised entry are iterated in that order |
| ExecutionProtocol.CallStep | src/enqueue-execution.ts:22-33 | A bypassed call runs at once and leaves the registry alone. A queued call waits on the token registered for its key, or on a settled default when absent, and registers its own `prom` before returning |
| ExecutionProtocol.StartStep | src/enqueue-execution.ts:26 | No ensures of its own: `fn` is invoked once the predecessor settled. `StartPreservesInv`, `CanStartIff` and `StartsInCallOrder` give it its meaning |
| ExecutionProtocol.FinishStep | src/enqueue-execution.ts:26 | No ensures of its own: `fn` settles either way. `FinishSetsResult`, `StepKeepsResult` and `FinishPreservesInv` give it its meaning |
| ExecutionProtocol.CleanupStep | src/enqueue-execution.ts:27-31 | No ensures of its own: the cleanup callback as written. `CleanupKeepsNewerRegistration`, `CleanupPreservesInv`, `RegistryTracksPending` and `QuiescentRegistryIsEmpty` give it its meaning |
| ExecutionProtocol.InitialInv | src/enqueue-execution.ts:59-61 | The invariant holds for an empty cache |
| ExecutionProtocol.CallPreservesInv | src/enqueue-execution.ts:22-33 | A call keeps the protocol invariant |
| ExecutionProtocol.StartPreservesInv | src/enqueue-execution.ts:26 | Starting `fn` once its predecessor settled keeps the invariant |
| ExecutionProtocol.FinishPreservesInv | src/enqueue-execution.ts:26 | `fn` settling keeps the invariant |
| ExecutionProtocol.CleanupPreservesInv | src/enqueue-execution.ts:27-31 | The cleanup callback keeps the invariant |
| ExecutionProtocol.StepPreservesInv | src/enqueue-execution.ts:21-33 | Every enabled event keeps the invariant |
| ExecutionProtocol.RunPreservesInv | src/enqueue-execution.ts:21-33 | Every sequence of enabled events keeps the invariant |
| ExecutionProtocol.ReachableInv | src/enqueue-execution.ts:21-33 | Every state reachable from an empty cache satisfies the invariant |
| ExecutionProtocol.RegistryTracksPending | src/enqueue-execution.ts:26-32 | The cache holds key `k` exactly while some call on `k` has an unsettled `prom` |
| ExecutionProtocol.QuiescentRegistryIsEmpty | src/enqueue-execution.ts:27-32 | Once every queued call has settled, the cache is empty |
| ExecutionProtocol.CanStartIff | src/enqueue-execution.ts:26 | A waiting call may start exactly when every earlier call on its own key has settled; calls on other keys never hold it back |
| ExecutionProtocol.StartsInCallOrder | src/enqueue-execution.ts:26-32 | If a call on a key has started, every earlier call on that key has started and settled (FIFO per key) |
| ExecutionProtocol.AtMostOneOccupying | src/enqueue-execution.ts:26-32 | No two calls on one key are between running `fn` and settling `prom` at once |
| ExecutionProtocol.CleanupKeepsNewerRegistration | src/enqueue-execution.ts:27-31 | At cleanup the key is still registered, so the synthesising read creates nothing. The key is deleted only if it holds the call's own `prom`. A later call's registration survives |
| ExecutionProtocol.EarliestPendingCanProceed | src/enqueue-execution.ts:27 | The earliest unsettled call on a key can always take its next step, whatever earlier calls' outcomes were |
| ExecutionProtocol.RejectionDoesNotBlockSuccessor | src/enqueue-execution.ts:27 | After a rejected call's cleanup, its successor may start |
| ExecutionProtocol.BypassLeavesQueueAlone | src/enqueue-execution.ts:24 | A bypassed call leaves the registry as it was, can finish at once, and changes no other call's ability to start |
| ExecutionProtocol.StepKeepsResult | src/enqueue-execution.ts:26-33 | Once the caller's promise has settled, no later event changes its outcome |
| ExecutionProtocol.FinishSetsResult | src/enqueue-execution.ts:26-33 | The caller's promise settles with exactly `fn`'s outcome |
| ExecutionProtocol.OtherGroupsDoNotWait | src/enqueue-execution.spec.ts:76-91 | After calls on 42, 42, 69 the first and third may start, the second may not |
| EnqueueExecution.CreateActiveExecutionsQueue | src/enqueue-execution.ts:59-61 | A fresh empty cache whose factory gives an already-resolved promise |
| EnqueueExecution.Executions.constructor | src/enqueue-execution.ts:16-20 | Wrapping over a given cache: no calls yet, invariant established |
| EnqueueExecution.Executions.Call | src/enqueue-execution.ts:21-34 | A call with any pick performs `CallStep` on the cache and the calls, and returns its own number; a queued call on a new key appends the key to the cache's order, and any other call leaves the order as it was |
| EnqueueExecution.Executions.CallDirectly | src/enqueue-execution.ts:24 | A bypassed call leaves the cache untouched and performs `CallStep` |
| EnqueueExecution.Executions.CallOnKey | src/enqueue-execution.ts:26-32 | Reads the cache with `get(key)`, chains behind the token it finds, registers its own token with `set`, and performs `CallStep`; the key is appended to the cache's order only if it was absent |
| EnqueueExecution.Executions.Start | src/enqueue-execution.ts:26 | Performs `StartStep`, keeping the invariant |
| EnqueueExecution.Executions.Finish | src/enqueue-execution.ts:26 | Performs `FinishStep`, keeping the invariant |
| EnqueueExecution.Executions.Cleanup | src/enqueue-execution.ts:27-31 | Performs `CleanupStep` with the cache's `get` and `delete`, and reports a deletion exactly when the cache held the call's own token; a deletion takes the key out of the cache's order and otherwise the order is unchanged |
| EnqueueExecution.TwoCallsOn42 | src/enqueue-execution.spec.ts:63-65 | Two calls on key 42: the second waits on the first's `prom`, and the second's `prom` is the one registered |
| EnqueueExecution.FirstRejects | src/enqueue-execution.spec.ts:63-65 | The first call may run, reject and be cleaned up; the key stays registered to the second call |
| EnqueueExecution.SecondFulfils | src/enqueue-execution.spec.ts:63-65 | The second call may then run and fulfil, and its cleanup empties the cache |
| EnqueueExecution.ContinueAfterRejection | src/enqueue-execution.spec.ts:63-73 | A rejected call on key 42 does not stop the next call from fulfilling, and the cache is empty afterwards |
| HttpErrors.FirstNumberPicksFirst | src/HttpError.ts:72-77 | The first numeric field wins; with none, the fallback |
| HttpErrors.FirstNumber | src/HttpError.ts:72-77 | The result is the fallback or the value of some numeric field; `FirstNumberPicksFirst` says which one |
| HttpErrors.StatusFields | src/HttpError.ts:73-75 | The three properties, in the order `getStatusCode` tries them; `StatusCodeOfHttpError` shows an `HttpError` yields its own code |
| HttpErrors.MessageOf | src/HttpError.ts:45 | No ensures of its own: `cause.message`. `FromError`'s message clause states where it is used |
| HttpErrors.GetStatusCode | src/HttpError.ts:72-77 | The status code is the first numeric one of `statusCode`, `code`, `errorCode`, else 500 |
| HttpErrors.StatusCodeOfHttpError | src/HttpError.ts:72-77 | `getStatusCode` of an `HttpError` is its own code |
| HttpErrors.NewHttpError | src/HttpError.ts:54-56 | The constructor keeps code, description and original error; `info` defaults to `{}` |
| HttpErrors.FromError | src/HttpError.ts:39-46 | The code defaults to `getStatusCode(cause)`. A string third argument is the message and the fourth the info base; otherwise the cause's message and the third argument. `cause` is added over the base |
| HttpErrors.InfoBase | src/HttpError.ts:42-45 | No ensures of its own: the object spread before `cause`. `FromError`'s info clauses state that the result holds exactly its keys and values besides `cause` |
| HttpErrors.FromErrorKeepsStatusCode | src/HttpError.ts:41 | Converting an error without a code keeps the status code `getStatusCode` gives it |
| HttpErrors.BadRequest | src/HttpError.ts:48 | Code 400, default message "Bad Request", info defaults to `{}` |
| HttpErrors.Forbidden | src/HttpError.ts:49 | Code 403, default message "Forbidden", info defaults to `{}` |
| HttpErrors.NotFound | src/HttpError.ts:50 | Code 404, default message "Resource Not Found", info defaults to `{}` |
| HttpErrors.Conflict | src/HttpError.ts:51 | Code 409, default message "Conflict", info defaults to `{}` |
| HttpErrors.ServerError | src/HttpError.ts:52 | Code 500, default message "Internal Server Error", info defaults to `{}` |
| HttpErrors.Intercept | src/HttpError.ts:19-24 | The result is the interceptor's replacement when it returns one, otherwise the error itself |
| HttpErrors.Handle | src/HttpError.ts:10-30 | `next(err)` with the same error exactly when it is not an `HttpError` and `catchAllErrors` is unset. Otherwise the response is the code, message and info of the (converted, then intercepted) error |
| HttpErrors.HandleHttpErrorAsIs | src/HttpError.ts:19-28 | With no replacement from the interceptor, an `HttpError` is sent with its own code, message and info |
| HttpErrors.HandleCatchAll | src/HttpError.ts:12-14 | With `catchAllErrors`, and when the interceptor returns no replacement, a plain error is sent with `getStatusCode`'s status, its message and `{cause}` |
| HttpErrors.HandleReplacement | src/HttpError.ts:20-28 | A replacement returned by the interceptor is what is sent |
| Scopes.MapAll | src/Scopes.ts:18 | Mapping applies the mapper to every scope, position by position |
| Scopes.AssertUserHasScopes | src/Scopes.ts:14-18 | A string first argument is put in front of the rest; the internal names are the mapped scopes with a mapper, else the scopes themselves |
| Scopes.MissingScopes | src/Scopes.ts:26 | The missing scopes are the required ones the user lacks; the list is empty exactly when every required scope is held |
| Scopes.MissingScopesAppend | src/Scopes.ts:26 | The missing list preserves the required order |
| Scopes.MissingScopesCount | src/Scopes.ts:26 | Each lacking scope is missing as many times as it is required |
| Scopes.IndexOf | src/Scopes.ts:27 | `indexOf` finds the first index of a present scope |
| Scopes.ReadableNames | src/Scopes.ts:27 | Each missing scope is reported by the readable name at the first index of its internal name |
| Scopes.ReadableNamesWithoutMapper | src/Scopes.ts:18-27 | Without a mapper the readable names are the missing scopes themselves |
| Scopes.Join | src/Scopes.ts:29 | No ensures of its own: `readable.join(', ')`. `OneMissingMessage` shows a single name is kept as it is, `TwoMissingText` that two are joined with ", " |
| Scopes.MissingMessage | src/Scopes.ts:29 | No ensures of its own: singular for exactly one missing scope, plural otherwise. `OneMissingMessage` and `TwoMissingText` state both forms |
| Scopes.TextList | src/Scopes.ts:30 | The info lists hold each scope as a text value, position by position |
| Scopes.Check | src/Scopes.ts:20-32 | No scope information gives 401 with the fixed message. `next` is called exactly when every required scope is held. Otherwise a 403 with the missing list, its message and `{requiredScopes, userScopes, missingScopes}` |
| Scopes.EmptyUserScopesAreForbidden | src/Scopes.ts:21-30 | A present but empty scope list with something required gives 403, not 401 |
| Scopes.OneMissingMessage | src/Scopes.ts:29 | One missing scope gives "Missing scope: " and its readable name |
| Scopes.SecondOfTwoMissing | src/Scopes.ts:24-29 | With two required scopes of which the user holds only the first, the checker throws "Missing scope: " and the second's readable name |
| Scopes.TwoMissingScopes | src/Scopes.spec.ts:39-47 | Of `myScope, otherScope, presentScope` a user with `presentScope` misses the first two, in order |
| Scopes.TwoMissingText | src/Scopes.ts:29 | Two missing scopes give the plural message, joined with ", " |
| Scopes.TwoMissingMessage | src/Scopes.spec.ts:39-47 | The checker throws "Missing scopes: myScope, otherScope" for that case |
| Scopes.MapperReportsReadableName | src/Scopes.spec.ts:58-69 | With a prefix/postfix mapper, the missing `presentScope` is reported by its readable name |

## Left out

- `handleSequentially` (src/enqueue-execution.ts:48-56): an Express adapter that waits for the response's `close` event. Its ordering is that of the serializer.
- Promise and microtask timing, `this` forwarding and `Function.apply`: settlement is modelled as explicit events.
- Which function a call runs and its arguments: they do not affect the protocol, so a call is identified by its pick alone.
- The group picker itself is user code. Its result is a parameter of `Call`. A picker that throws is not modelled (the registry would be untouched).
- EnqueueExecution.Executions.constructor: requires an empty cache from `createActiveExecutionsQueue`. A user-supplied cache with a different factory or prefilled entries is not modelled.
- Multi-key fan-out: the code uses the picker's result directly as one `Map` key, so there is no join over several keys to model.
- `console.error` logging and the Express `res.status().json()` / `next()` calls of `HttpError.Handler`: the model returns the decision instead.
- The interceptor's `req` argument is not modelled. Its possibly asynchronous result is a value: falsy, a replacement, or a throw.
- JSON formatting of circular `info` objects: done by the JSON layer, not this code.
- `Error` subclassing and `instanceof`: "is an `HttpError`" is a tag of the error value.
- DefaultMaps.MapWithDefault: the factory is a pure, total function and entries are stored by value. A factory that throws (the source's `get` then throws and leaves the map unchanged) is not modelled. A factory that builds a new object on each call is not modelled. Changing an object through the reference `get` returned (src/MapWithDefault.spec.ts:27-28) is not modelled. For the queue this loses nothing: every promise from `createActiveExecutionsQueue`'s factory is already resolved, so all of them are the one token `Resolved`.
- HttpErrors.GetStatusCode: JavaScript numbers are modelled as integers. `typeof x === 'number'` also holds for `NaN` and fractions, which the model does not represent.
- A mapper in `assertUserHasScopes` is a pure function; side effects in it are not modelled.
- src/middleware-wrapper.ts, src/test/mock-server.ts, the test files, jest.config.js, compatibility.js and index.js: wrappers, test scaffolding and configuration.
- The `Scopes` class with prefix/postfix used by src/Scopes.spec.ts is not part of this model (it is not in the source). A prefix/postfix is modelled as a mapper.
