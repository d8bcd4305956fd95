# mlua bridge core, modelled in Dafny

mlua is a Rust binding to the Lua interpreter. This project models the part of it that is more
than thin plumbing over the Lua C API. Each of the four source files below becomes one Dafny
module. The shared values, errors and interpreter state are in `Interp` (`interp.dfy`).

- **Tables** (`table.dfy`, `src/table.rs`). A `Table` class holds its raw contents as a map
  with no nil keys and no nil values.
  - `raw_get`, `raw_set`, `raw_len` and `contains_key` are modelled.
  - `raw_insert` and `raw_remove` keep their in-place shift loops, proved against functions
    `InsertedAt` and `RemovedAt` that describe the resulting table.
  - Lemmas prove the length change, that a table without holes stays without holes, and the
    insert-then-remove round trip.
  - `equals` decides by identity, then the receiver's `__eq` handler, then the argument's.
  - `TableSequence` and `TablePairs` are cursor classes. Driver methods prove what a full
    iteration yields.
- **Threads** (`thread.dfy`, `src/thread.rs`). A coroutine is modelled as its `lua_status`
  code, its stack depth and a body function.
  - The body maps the coroutine's frame, the resume arguments and the registered waker to a
    yield, a return or an error.
  - `status` is a pure classification. `resume` applies the inactive guard and then the
    interpreter's transition.
  - `AsyncThread` models the stream (`poll_next`) and the future (`poll`). Both resume under a
    `WakerGuard` that sets the registry's waker entry and clears it afterwards.
  - The test and documentation coroutines are run as scenarios: the accumulators, the 42/123
    exchange, and the stream summing to 286.
- **Scopes** (`scope.dfy`, `src/scope.rs`). A `Scope` keeps the list of destructors for the
  handles created in it.
  - Each successful creation appends one entry. A failed creation appends nothing.
  - Ending the scope invalidates every handle in order before it drops anything it took back.
  - A closure made by `create_function_mut` refuses re-entry with `RecursiveMutCallback`.
- **Types** (`types.dfy`, `src/types.rs`).
  - `RegistryKey` pushes its slot onto the shared release list when dropped. `take` hands the
    slot out without pushing it.
  - `LuaRef` equality is raw equality of the referenced values.
  - The `Debug` texts `Ref(<n>)` and `RegistryKey(<n>)` are proved to read back to the number.

The interpreter's own behaviour enters as parameters rather than as code:
- the `lua_next` traversal order is `order`;
- a fault the interpreter raises while reading is `fault`;
- the result of calling an `__eq` handler on two tables, in the order given, is `callEq`;
- a coroutine's code is its `body`;
- a host closure's effect is `behaviour`, a function of its arguments and of the outcome of the nested call it made of itself, if any.

`Value` equality is the interpreter's raw equality.

The stream also yields the values a coroutine returns as an item (src/thread.rs:245-250).
- The thread is still `Resumable` when that poll begins, and is `Unresumable` only after it.
- So a coroutine that yields N times and then returns produces N + 1 items, not N.
- The `into_async` example (ten yields plus the return, summing to 286) and `test_thread_stream`
  (summing to 275) both count this way.
- The model follows the code: see `Threads.CountUpStream`.

## Model

| member | source | states |
|---|---|---|
| Tables.Put | src/table.rs:226-247 | Storing under a non-nil key makes a lookup of that key return the value. Every other key is unaffected. A nil value removes the key, so the no-nil invariant is kept. |
| Tables.SetOutcome | src/table.rs:226-247 | `raw_set` with a nil key fails and leaves the table as it was. Otherwise it succeeds, only `key` changes, and the table stays well formed. |
| Tables.Table.RawSet | src/table.rs:226-247 | The new contents and the result are exactly those of `SetOutcome` on the old contents. |
| Tables.Table.RawGet | src/table.rs:250-263 | A non-nil result is the stored value. In a well-formed table, nil means the key is absent. |
| Tables.SeqLen | src/table.rs:345-354 | The length is a border: t[1..n] are all non-nil and t[n+1] is nil. |
| Tables.Table.RawLen | src/table.rs:345-354 | `raw_len` is a border of the table's contents. |
| Tables.Table.ContainsKey | src/table.rs:114-134 | True exactly when the stored value is non-nil, which for a well-formed table means the key is present. |
| Tables.Table.RawInsert | src/table.rs:267-291 | Out of bounds (idx < 1 or idx > len + 1): fails with "index out of bounds" and changes nothing. Otherwise: succeeds, and the contents become `InsertedAt(old, len, idx, value)`. The well-formedness invariant is kept. |
| Tables.ShiftUpStep | src/table.rs:283-287 | The insert loop's invariant: slots above the cursor already hold their shifted values. One copy `t[i+1] = t[i]` keeps this true with the cursor moved down one. |
| Tables.InsertedAtSpec | src/table.rs:282-289 | After an insert at idx: t[idx] = v, the old t[k] is at k+1 for idx <= k <= len, and every other integer key and every non-integer key is unchanged. |
| Tables.InsertFinished | src/table.rs:283-288 | Once the loop has shifted t[idx..len] up, storing the value at idx gives exactly `InsertedAt`. |
| Tables.InsertedLen | src/table.rs:267-291 | For a table without holes, inserting a non-nil value makes the length len + 1 and leaves no holes. |
| Tables.Table.RawRemove | src/table.rs:300-327 | Integer key out of bounds (< 1 or > len): fails with "index out of bounds" and changes nothing. Valid integer key: the contents become `RemovedAt(old, len, idx)`. Any other key: exactly `raw_set(key, nil)`. |
| Tables.ShiftDownStep | src/table.rs:316-319 | The remove loop's invariant: slots from idx up to the cursor hold their successors. One copy `t[i] = t[i+1]` keeps this true with the cursor moved up one. |
| Tables.RemovedAtSpec | src/table.rs:315-322 | After a remove at idx: the old t[k+1] is at k for idx <= k < len, t[len] is nil, and everything else is unchanged. |
| Tables.RemoveFinished | src/table.rs:316-321 | Once the loop has shifted t[idx+1..len] down, clearing t[len] gives exactly `RemovedAt`. |
| Tables.RemovedLen | src/table.rs:300-323 | A valid remove makes the length len - 1 and leaves a table without holes without holes. |
| Tables.InsertRemoveRoundTrip | src/table.rs:267-327 | Inserting v at idx into a table without holes, then removing idx, gives back the original table. |
| Tables.Table.Equals | src/table.rs:198-223 | Identical tables are equal without looking at metatables. Otherwise the receiver's `__eq` handler decides if present, else the argument's, else the result is false. Whichever handler decides is called with the receiver first and the argument second. An `__eq` entry that is not a function is a conversion error. |
| Tables.EqHandler | src/table.rs:207-208 | A table has an `__eq` handler exactly when it has a metatable and that metatable contains the key `__eq`. |
| Tables.EqualsWithoutHandlers | src/table.rs:198-223 | With no `__eq` handler on either side, `equals` is table identity, and so symmetric. |
| Tables.EqualsReceiverFirst | src/table.rs:204-212 | When both tables have handlers, each direction calls its own receiver's handler, with that receiver as the first argument. |
| Tables.EqualsArgumentOrder | src/table.rs:214-219 | When only the argument has a handler, both directions call that handler, each with its own receiver first, so `a.equals(b)` and `b.equals(a)` pass the tables in opposite orders. |
| Tables.Table.SequenceValues | src/table.rs:475-481 | A fresh iterator on this table whose cursor is at index 1. |
| Tables.TableSequence.Next | src/table.rs:577-606 | An exhausted cursor yields nothing. A read fault is yielded as an error and ends the iteration. A nil slot ends it. A non-nil slot is yielded and the cursor advances by one. |
| Tables.SequencePart | src/table.rs:434-440 | What `sequence_values` yields: exactly t[1..len], all non-nil. |
| Tables.SequencePartExample | src/table.rs:455-466 | The table {[1]=4, [2]=5, [4]=7, key=2} has sequence part [4, 5]. |
| Tables.CollectSequence | src/table.rs:577-606 | Driving the iterator to its end yields exactly `SequencePart` of the table, and the exhausted iterator yields nothing more. |
| Tables.NextKey | src/table.rs:525-539 | `lua_next` over a traversal order. After nil comes the first key. After a key comes its successor, or nothing after the last key. A key not in the traversal is an error. |
| Tables.Table.Pairs | src/table.rs:426-432 | A fresh iterator whose next key is nil. |
| Tables.TablePairs.Next | src/table.rs:515-557 | The stored key is taken. A fault in the protected call, or `lua_next`'s error for an unknown key, is yielded and ends the iteration. The end of the traversal ends it. A found key is yielded with its value and becomes the stored key. |
| Tables.CollectPairs | src/table.rs:515-557 | Over a traversal of a well-formed table, the pairs yielded are exactly (order[j], t[order[j]]) for every j, in order, and the iteration ends. |
| Threads.Classify | src/thread.rs:141-160 | `Error` exactly for a status other than OK and YIELD. `Resumable` exactly for YIELD, or OK with a non-empty stack. `Unresumable` exactly for OK with an empty stack. |
| Threads.Coroutine.Status | src/thread.rs:141-160 | `Error` exactly for a status other than OK and YIELD, `Unresumable` exactly for OK with an empty stack, and a `Resumable` thread always passes `resume`'s inactive guard. |
| Threads.ResumeOutcome | src/thread.rs:100-125 | Only a `Resumable` thread changes. A successful resume leaves an empty stack with status OK or YIELD, and a yield leaves the thread `Resumable`. A failed resume either leaves the thread as it was or puts it in `Error`. |
| Threads.GuardAgreesWithStatus | src/thread.rs:102-105 | A thread the inactive guard rejects is never `Resumable`. Every `Unresumable` thread is rejected. A thread that passes the guard but is not `Resumable` is in an error status. |
| Threads.ResumeFinished | src/thread.rs:102-125 | Resuming a thread that is not `Resumable` fails and leaves it unchanged. For an `Unresumable` thread the error is `CoroutineInactive`. |
| Threads.ResumeResumable | src/thread.rs:110-137 | Resuming a `Resumable` thread runs its body once. A yield returns the values and leaves it `Resumable`. A return returns them and leaves it `Unresumable`. An error returns the message and leaves it in `Error`. |
| Threads.FinishedStaysFinished | src/thread.rs:88-160 | After a thread stops being `Resumable`, every later resume, however many, fails and leaves it unchanged. |
| Threads.Coroutine.Resume | src/thread.rs:88-138 | The result and the new thread state are those of `ResumeOutcome`. The body sees the waker the registry holds at that moment. |
| Threads.WakerGuard.constructor | src/thread.rs:315-326 | Creating the guard stores the waker in the registry's waker entry. |
| Threads.WakerGuard.Drop | src/thread.rs:329-341 | Dropping the guard clears the waker entry. |
| Threads.IsPollPending | src/thread.rs:289-310 | A pending result is exactly one value, a userdata holding the pending marker. |
| Threads.MarkerIsPending | src/thread.rs:289-310 | Conversely, a single userdata holding the pending marker is pending, whatever the userdata's identity. |
| Threads.OrdinaryResultsNotPending | src/thread.rs:289-310 | A result is never "pending" unless it is exactly one value that is the bridge's pending marker. |
| Threads.AsyncThread.constructor | src/thread.rs:204-215 | `into_async` stores the start arguments for the first poll. |
| Threads.AsyncThread.GuardedResume | src/thread.rs:238-243 | The stored arguments are taken, so they are used once. The resume runs with the waker registered. The waker entry is clear afterwards, on success and on error alike. |
| Threads.AsyncThread.PollNext | src/thread.rs:230-251 | A thread that is not `Resumable` ends the stream and nothing changes. Otherwise: an error is the next item without a wake; the pending marker gives `Pending` without a wake; any other values, including the final return, are the next item and the task is woken. |
| Threads.AsyncThread.Poll | src/thread.rs:260-286 | A thread that is not `Resumable` gives "Thread already finished". Otherwise: an error is the output; the pending marker gives `Pending` without a wake; a yield is discarded and gives `Pending` with a wake; the values of a finished thread are the output. A ready value never comes from a thread that is still `Resumable`. |
| Threads.AccumulatorRun | tests/thread.rs:10-38 | The accumulator resumed with 0..4 yields 0, 1, 3, 6, then returns 10. It is `Resumable` throughout and `Unresumable` at the end. One more resume gives `CoroutineInactive`. |
| Threads.EndlessAccumulatorRun | tests/thread.rs:40-59 | The endless accumulator yields 10 after 0..4 and is still `Resumable`. Adding a string raises an arithmetic error and leaves it in `Error`. It is then refused as dead, because the failed coroutine's stack still holds its `sum` slot. |
| Threads.AskAndAnswerRun | tests/thread.rs:75-95 | Started with 42 it yields 123. Resumed with 43 it returns 987. It is then `CoroutineInactive`. |
| Threads.CountUpStream | src/thread.rs:180-199 | The `into_async` example stream, summed, gives 286 (ten yields plus the returned 56). |
| Threads.CountUpFuture | src/thread.rs:260-286 | The same thread as a future is pending for ten polls and then ready with 56 on the eleventh. |
| Scopes.Scope.constructor | src/scope.rs:34-40 | A new scope has no destructors. |
| Scopes.Scope.CreateCallback | src/scope.rs:299-320 | A failed registration returns the error and appends nothing. A successful one appends exactly one entry for a fresh function holding the callback. |
| Scopes.Scope.CreateFunction | src/scope.rs:49-69 | Same as `create_callback`, with a fresh unguarded callback. |
| Scopes.Scope.CreateFunctionMut | src/scope.rs:79-91 | Same as `create_callback`, with a fresh guarded callback (the closure behind a cell). |
| Scopes.Scope.CreateStaticUserData | src/scope.rs:101-119 | A failed creation returns the error and appends nothing. A successful one appends exactly one entry for a fresh userdata holding the data. |
| Scopes.Callback.Call | src/scope.rs:79-91 | A guarded callback that is already running refuses with `RecursiveMutCallback` and does not run. Otherwise the result is `Outcome`: the closure's behaviour on its arguments and on the outcome of its nested self-call, made with arguments of its own. That nested call is refused when guarded and runs, recursively, when unguarded. The activation count is restored. |
| Scopes.GuardedNeverNests | src/scope.rs:79-91 | A closure behind the `create_function_mut` cell that calls itself always receives the refusal, whatever arguments the nested call has. |
| Scopes.ScopedFunction.Invoke | src/scope.rs:305-316 | A function whose upvalue was cleared fails with `CallbackDestructed`. Otherwise the call reaches the callback, and the result is `Outcome` of its closure. |
| Scopes.Destruct | src/scope.rs:305-316 | A destructor hands back what its handle held, leaves it invalidated, appends the invalidation to the scope's record, and leaves every other handle of the list as it was. |
| Scopes.InvalidateAll | src/scope.rs:329-334 | Runs the destructors in registration order. What they hand back is each handle's content, in order, every handle ends invalidated, and the record grows by the invalidations in that order. |
| Scopes.Scope.Release | src/scope.rs:336 | Dropping a reclaimed value requires every handle the scope drained to be invalidated already, and appends that value's drop to the record. |
| Scopes.Scope.ReleaseAll | src/scope.rs:336 | Drops the reclaimed values in order, all after every drained handle is invalidated, and the record grows by the drops in that order. |
| Scopes.Scope.Drop | src/scope.rs:323-338 | The list ends empty, the drained handles are the registered ones, and all are invalidated. Every step appends to the record as it runs, and the record grows by all invalidations, in order, and only then by the drops of the reclaimed values, in the same order. |
| Scopes.ScopeLifetime | src/scope.rs:299-338 | A scoped function calls through while the scope lives and gives `CallbackDestructed` after it ends. A scoped userdata loses its payload. |
| Scopes.ReentrantCalls | src/scope.rs:79-91 | A mutable closure that calls itself with other arguments has the nested call refused, and its outer activation receives that refusal. A plain function's nested call runs, and the outer activation receives its result. |
| Types.NatRoundTrip | src/types.rs:85-89 | Reading back the decimal digits of a natural number gives the number. |
| Types.IntRoundTrip | src/types.rs:54-58 | Reading back the decimal text of an integer, including a minus sign, gives the integer. |
| Types.IntToDecimalInjective | src/types.rs:54-58 | Distinct integers have distinct decimal texts. |
| Types.RefDebug | src/types.rs:85-89 | The text starts with "Ref(" and ends with ")", and the number between them is the slot index. |
| Types.RefDebugInjective | src/types.rs:85-89 | Two references have the same debug text exactly when they are the same reference. |
| Types.RefEquals | src/types.rs:103-114 | Two references to the same slot are always equal. |
| Types.RefEqualsEquivalence | src/types.rs:103-114 | Reference equality is raw equality of the referenced values: reflexive, symmetric and transitive, and independent of which slots hold the values. |
| Types.RegistryKey.Debug | src/types.rs:54-58 | The text starts with "RegistryKey(" and ends with ")", and the number between them is the registry id. |
| Types.RegistryKey.Drop | src/types.rs:60-66 | With the release list present, the id is appended. With it absent, nothing changes. |
| Types.RegistryKey.Take | src/types.rs:68-78 | Returns the id and consumes the key without touching the release list. |
| Types.KeyLifecycle | src/types.rs:60-78 | Of two keys sharing a list, the taken one is never queued and the dropped one is queued once. Dropping a key after the interpreter is gone queues nothing. |

## Left out

- Metamethods are not modelled: `__index` and `__newindex`, `__len`, and calling `__eq`, which is a parameter.
  - `contains_key` looks the key up with `lua_gettable`, which may run `__index`. The model reads the raw contents.
- Tables.SeqLen: it makes the least-border choice that `Tables.Table.RawLen`, `RawInsert` and `RawRemove` inherit; see the next line.
- Tables.Table.RawLen: `lua_rawlen` may report any border of a table with holes. The model reports the least border, which is the only one for a table without holes.
- The `lua_next` traversal order is left out, because the interpreter does not specify it. It is the `order` parameter.
- Lua integers are unbounded in the model.
  - It does not capture 64-bit wrap-around, of `raw_insert`'s `size + 1` or of coroutine arithmetic.
  - It does not capture the 32-bit `c_int` of registry ids.
- Floating-point numbers are not modelled.
- Lua's coercion of numeric strings in arithmetic is not modelled.
- Conversions between host values and Lua values (`ToLua`, `FromLua`, `FromLuaMulti`) are not modelled, and neither are their errors.
  - The exception is `into_async`, whose argument conversion result is kept.
- The C-API stack plumbing is not modelled: `StackGuard`, `assert_stack`, `check_stack`, pushing and popping values.
- The errors of `protect_lua` and `protect_lua_closure` are not modelled, including out-of-memory errors. The iterators' `next` methods (`TableSequence.Next` and `TablePairs.Next`) take an explicit `fault` standing for such an error instead.
- Error messages are simplified:
  - the traceback that `error_traceback` attaches;
  - the position prefix the interpreter adds to errors.
- Threads.Coroutine.Resume: resuming a coroutine that is currently running is not modelled. Neither is a coroutine's own call stack beyond its stack depth.
- A failure of `WakerGuard::new`, an allocation error that the source ignores, is not modelled.
- Wakers are tokens, and waking is reported as a flag. Executors are not modelled.
- `Mutex` locking of the release list is not modelled; this is concurrency. Neither is `Send`.
- Panics, and their propagation through coroutines, are not modelled.
- `create_nonstatic_userdata` and its helper types are not modelled. They are commented out in the source.
- The lifetime transmute in `create_callback` is a type-system matter and is not modelled.
- The callback-destructed check of the interpreter handle (`lua.rs`) is not part of this model. `Invoke` stands for it.
- Dropping a `LuaRef`, and cloning it, is not part of this model.
