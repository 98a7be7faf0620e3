# ngx-rust core, modelled in Dafny

This project models the parts of the `ngx-rust` bindings for nginx that have logic of their own, and proves what they promise. These parts are:

- **The async runtime's scheduler** (`AsyncSpawn`). `schedule` runs a runnable inline when it is called on the recorded event-loop thread. On any other thread it queues the runnable and calls `ngx_notify`. `notify_handler` records the thread id once and drains the queue. `spawn` schedules a task's first step.
- **The phase-handler adapter** (`HttpAsyncRequest`). This is the per-request machine no context → running → finished → removed, keyed by a pool-unique context. It also covers the wrapper future that posts the write event when the worker finishes.
- **Async subrequests** (`HttpAsyncSubRequest`): the flag builder, the error paths of `build`, and the callback-to-poll future.
- **The request memory pool** (`CorePool`): the typed cleanup registry with unique-per-type values, the allocator's size/alignment dispatch, in-place `resize`, and `grow_zeroed`.
- **Request wrappers.**
  - `HttpRequestContext`: per-request contexts in the module's `ctx` slot.
  - `HttpRequest`:
    - the `ctx` slot array and the `internal_redirect` branch;
    - the `Method` mappings;
    - the iterator over an `ngx_list_t` header chain.
  - `CoreStatus`: `Status` and `ngx_make_opt`.
- **The `log` crate bridge** (`LogInterop`):
  - the level mapping and the `enabled` rule;
  - the once-only `init`;
  - the thread-local logger cell with scoped save/restore;
  - the control flow of `Logger::log`, including its one-time "messages dropped" notice.
- **The build script** (`BuildMain`, with the `str` functions it needs in `Text`): the Makefile `ALL_INCS` parser, path resolution, and the `-I` clang arguments.
- **The bindgen callbacks** (`BindgenCallbacks`):
  - the external-type registry and its `find`;
  - the blocklist and `uses` lines;
  - the parsing of blocklisted type names.
- **Two example modules.**
  - `SharedDict`:
    - the `$shared_dict_entries` serialiser and its exact length precomputation;
    - the `shared_dict` directive's variable-name check;
    - the get/set/delete/clear handlers over the shared map.
  - `AsyncExample`:
    - the `async on|off` directive and its merge;
    - the access-handler and write-event-handler decisions.

## How the model is built

Code that changes state in place is a `class` with that state as fields. Each class method states its new state through a pure specification function, and the properties are proved about those functions. The state classes are:

| entity | class |
|---|---|
| scheduler globals | `Runtime` |
| channel | `Channel` |
| pool | `Pool` |
| `ctx` array | `Request` |
| list iterator | `NgxListIterator` |
| subrequest future | `AsyncSubRequest` |
| thread logger | `ThreadLogger` |
| bindgen registry | `NgxBindgenCallbacks` |
| shared map and zone | `Dict`, `ShmZone` |
| module configuration | `ModuleConfig` |

Pure code (matches, conversions, text transforms) is modelled as functions and lemmas.

Calls into nginx or other foreign code become parameters whose values stand for what the call returned:

- allocations: `cln`, `allocOk`, `returned`;
- `ngx_http_subrequest`'s rc;
- which tasks are finished, with their rc;
- `ngx_http_read_client_request_body`'s rc;
- the current thread id.

Effects that the source has on the outside world are appended to a trace:

- a runnable running;
- `ngx_notify`;
- a value's drop handler running;
- `ngx_pfree`;
- a log write;
- a woken waker.

The nginx constants (`ngx_consts.dfy`) carry nginx's own values. Among the properties of these values, the proofs rely on these:
- the status codes are pairwise distinct;
- the control codes (`NGX_ERROR`, `NGX_AGAIN`, ...) are negative;
- `NGX_HTTP_SPECIAL_RESPONSE` (300) is positive and below 2^31;
- the `NGX_LOG_*` levels are in their numeric order;
- the bit layout of the flag and mask words.

## Model

| member | source | states |
|---|---|---|
| AsyncSpawn.Runtime.GetScheduler | src/async_/spawn.rs:84-88 | `scheduler()` creates the channel only on the first call; afterwards it returns the same instance, with its queue untouched |
| AsyncSpawn.Runtime.Schedule | src/async_/spawn.rs:71-81 | on the recorded thread, the runnable runs and the queue is unchanged; on any other thread, it is appended to the queue tail and exactly one `Notified` event is added; the new state is `ScheduleSpec` of the old |
| AsyncSpawn.Channel.TryRecv | src/async_/spawn.rs:38 | `try_recv` yields the oldest queued runnable and removes it, or `None` on an empty queue |
| AsyncSpawn.Runtime.NotifyHandler | src/async_/spawn.rs:34-46 | the thread id is recorded only if none was; every queued runnable runs once, in FIFO order; the queue ends empty; `cnt` is the number dequeued (`DrainSpec`) |
| AsyncSpawn.Runtime.Spawn | src/async_/spawn.rs:96-106 | a new task id is handed out and the spawned task's first runnable is scheduled exactly once |
| AsyncSpawn.Runtime.constructor | src/async_/spawn.rs:20 | at process start, no thread id is recorded, no scheduler exists and nothing has run |
| AsyncSpawn.Channel.constructor | src/async_/spawn.rs:66-69 | `Scheduler::new` gives an empty queue |
| AsyncSpawn.Runs | src/async_/spawn.rs:38-41 | running `rs` on thread `t` gives one `Ran(rs[k], t)` event per runnable, in order |
| AsyncSpawn.MainTidSetOnce | src/async_/spawn.rs:20-36 | once recorded, the main thread id never changes, whatever later operations do |
| AsyncSpawn.BeforeFirstDrainAllQueued | src/async_/spawn.rs:28-81 | before the first drain, every schedule from any thread is queued with one notify, and nothing runs |
| AsyncSpawn.FirstDrainRunsAllInOrder | src/async_/spawn.rs:34-41 | the first drain records its thread and runs everything scheduled before it, once each, in scheduling order |
| AsyncSpawn.RanOfRuns | src/async_/spawn.rs:38-41 | the runnables of a drain's events are exactly the drained queue, in order |
| AsyncSpawn.StepConserves | src/async_/spawn.rs:71-81 | one operation moves one runnable from scheduled to queued or run, or from queued to run; the multiset of run plus queued runnables is preserved |
| AsyncSpawn.ScheduledRunOrQueued | src/async_/spawn.rs:34-81 | over any sequence of operations, every scheduled runnable has either run exactly once or is still queued |
| AsyncSpawn.ExactlyOnceWhenDrained | src/async_/spawn.rs:37-41 | once the queue is empty, each scheduled runnable has run exactly once |
| HttpAsyncRequest.AsyncPhase | src/http/async_request.rs:31-37 | the content phase is refused; every other phase is kept unchanged |
| HttpAsyncRequest.HandlerSpec | src/http/async_request.rs:73-101 | one handler call does the following: <br>• spawns exactly when there is no context and allocation succeeds; <br>• returns `ContextCreationFailed` exactly when allocation fails, and `NoAsyncLauncher` exactly for a launcher-less context; <br>• returns `NGX_AGAIN` and keeps the context while the spawned task runs; <br>• returns the spawned task's rc and drops the context once it has finished |
| HttpAsyncRequest.Handler | src/http/async_request.rs:73-101 | the handler over the pool and the runtime: <br>• its result and the pool-unique context afterwards are those of `HandlerSpec`; <br>• it spawns exactly one task when `HandlerSpec` does, and otherwise leaves the runtime alone; <br>• it never fails with `ContextDeletionFailed`, because the context it found is live; <br>• cleanup entries of other types keep their order and contents, values not owned by a context entry are kept, and at most the one context is dropped; <br>• a cleanup entry is added exactly when there was no context and one could be allocated, and a value is dropped exactly when the call finished the task |
| HttpAsyncRequest.AcquireCtx | src/http/async_request.rs:74-87 | the context is found when one exists, and otherwise allocated with the next task spawned into it; it is absent exactly when there was none and allocation failed |
| HttpAsyncRequest.FinishCall | src/http/async_request.rs:89-100 | no launcher gives `NoAsyncLauncher`; a running task gives `NGX_AGAIN` with nothing changed; a finished one gives its rc, removes the context and drops it once |
| HttpAsyncRequest.Run | src/http/async_request.rs:73-101 | successive handler calls yield one result per call; what the results are is stated by `HttpAsyncRequest.RunningUntilFinished` and `HttpAsyncRequest.HandlerLifecycle` |
| HttpAsyncRequest.RunningUntilFinished | src/http/async_request.rs:89-100 | with a running launcher, each call returns `NGX_AGAIN` until the first call that finds the spawned task finished; that call returns its rc and removes the context; nothing is spawned |
| HttpAsyncRequest.HandlerLifecycle | src/http/async_request.rs:75-100 | over a request's life, the first call spawns the single task, calls return `NGX_AGAIN` until completion, the finishing call returns the rc, and the request is left without a context |
| HttpAsyncRequest.HandlerFuturePoll | src/http/async_request.rs:141-162 | the inner poll result is passed through, and the write event is posted exactly when it is `Ready` |
| HttpAsyncRequest.WriteEventsPosted | src/http/async_request.rs:141-162 | a sequence of polls posts at most one event per poll; `HttpAsyncRequest.OnePostPerCompletion` states that a completion posts exactly one |
| HttpAsyncRequest.PendingPostsNothing | src/http/async_request.rs:146-149 | `Pending` polls post no write event |
| HttpAsyncRequest.OnePostPerCompletion | src/http/async_request.rs:145-160 | pending polls followed by the ready one post exactly one write event |
| HttpAsyncSubRequest.NewBuilder | src/http/async_request.rs:203-208 | `new` has no args and a zero flags word |
| HttpAsyncSubRequest.WithArgs | src/http/async_request.rs:211-214 | `args` sets the arguments and nothing else |
| HttpAsyncSubRequest.InMemory | src/http/async_request.rs:217-220 | sets the in-memory bit and leaves every other field and bit |
| HttpAsyncSubRequest.Waited | src/http/async_request.rs:223-226 | sets the waited bit and leaves every other field and bit |
| HttpAsyncSubRequest.Background | src/http/async_request.rs:229-232 | sets the background bit and leaves every other field and bit |
| HttpAsyncSubRequest.FlagsMaskHasBit | src/http/async_request.rs:217-232 | a flag's `NGX_HTTP_SUBREQUEST_*` bit is set in the word exactly when the flag was set |
| HttpAsyncSubRequest.FlagSettersIdempotent | src/http/async_request.rs:217-232 | each flag setter is idempotent |
| HttpAsyncSubRequest.FlagSettersCommute | src/http/async_request.rs:217-232 | the flag setters commute |
| HttpAsyncSubRequest.BuilderFlagsExact | src/http/async_request.rs:203-232 | all three setters on a new builder give exactly the OR of the three bits |
| HttpAsyncSubRequest.Build | src/http/async_request.rs:235-287 | each error is returned exactly when its step is the first to fail, in the source's order: <br>• `RequestAllocFailed`; <br>• `UriAllocFailed`; <br>• `ArgsAllocFailed`, only when args are given; <br>• `PostRequestAllocFailed`; <br>• `CreationFailed`, on a non-OK `ngx_http_subrequest`. <br>On success, the subrequest is issued with the uri, the args and the flags word, and the future starts with no waker and no rc |
| HttpAsyncSubRequest.BuildIgnoresArgsAllocWithoutArgs | src/http/async_request.rs:250-259 | without args, the args allocation outcome cannot change the result |
| HttpAsyncSubRequest.SrHandlerSpec | src/http/async_request.rs:300-316 | the callback records rc, takes the stored waker (the one woken) and keeps `sr` |
| HttpAsyncSubRequest.PollSpec | src/http/async_request.rs:322-347 | `poll` always stores the new waker, then: <br>• no `sr` gives `Ready((NGX_ERROR, None))`; <br>• no rc gives `Pending`; <br>• otherwise it gives `Ready((rc, sr))` and clears `sr` |
| HttpAsyncSubRequest.BuiltFuturePending | src/http/async_request.rs:280-338 | a freshly built future polls `Pending` |
| HttpAsyncSubRequest.PendingThenCompleted | src/http/async_request.rs:300-347 | a `Pending` poll stores its waker, the callback wakes exactly that waker, and the next poll resolves with rc and the subrequest |
| HttpAsyncSubRequest.PollAfterReadyIsError | src/http/async_request.rs:330-346 | after resolving, any further poll reports `NGX_ERROR` |
| HttpAsyncSubRequest.AsyncSubRequest.constructor | src/http/async_request.rs:280-286 | the boxed future starts in the state `build` produced, with no waker woken |
| HttpAsyncSubRequest.AsyncSubRequest.SrHandler | src/http/async_request.rs:300-316 | returns rc unchanged; the new fields are `SrHandlerSpec` of the old; a stored waker is woken once and cleared |
| HttpAsyncSubRequest.AsyncSubRequest.Poll | src/http/async_request.rs:322-347 | the new fields and the result are `PollSpec` of the old state; nothing is woken |
| CorePool.FirstMatch | src/core/pool.rs:266-287 | the first entry at or after `from` whose handler is the type's and, given a value, whose data is it; `None` only when no entry matches |
| CorePool.Pool.CleanupLookup | src/core/pool.rs:266-287 | the loop over the chain returns the first match from the head (`Find`), or `None` when none matches |
| CorePool.RemovedUniqueNotFound | src/core/pool.rs:250-287 | with at most one live entry per unique type, once that entry's handler is taken no lookup finds the type |
| CorePool.RemovedValueNotFound | src/core/pool.rs:250-258 | with distinct data pointers, once the entry holding a value is removed no lookup finds that value |
| CorePool.AllocCallFor | src/core/pool.rs:22-55 | size 0 calls nothing; align 1 calls `ngx_pnalloc`; align ≤ `NGX_ALIGNMENT` calls `ngx_palloc`; larger alignments call `ngx_pmemalign`, or are unsupported without memalign |
| CorePool.AllocatorAllocate | src/core/pool.rs:22-55 | size 0 yields the dangling pointer without touching the pool; otherwise success exactly when the alignment is supported and nginx returned a pointer, which is then the result |
| CorePool.DeallocateFreesLargeBlocks | src/core/pool.rs:57-69 | `ngx_pfree` is called exactly for `ngx_pmemalign` blocks, and for `ngx_palloc`/`ngx_pnalloc` blocks bigger than the pool's `max` |
| CorePool.Pool.Deallocate | src/core/pool.rs:57-69 | frees when size > 0 and (size > `max` or align > `NGX_ALIGNMENT`), and is a no-op otherwise |
| CorePool.CopyNonoverlapping | src/core/pool.rs:433 | the destination range receives the source bytes; every other byte is unchanged |
| CorePool.WriteBytes | src/core/pool.rs:97-101 | the range is set to the byte; every other byte is unchanged |
| CorePool.Pool.constructor | src/core/pool.rs:147-151 | a wrapped pool starts with no cleanup entries or values |
| CorePool.Pool.CleanupType | src/core/pool.rs:452-456 | the handler drops the value once, unless the data pointer is null |
| CorePool.Pool.AllocateWithCleanup | src/core/pool.rs:218-227 | a failed `ngx_pool_cleanup_add` gives null and changes nothing; otherwise a new entry is linked at the chain's head and holds the value |
| CorePool.Pool.AllocateWithCleanupUnique | src/core/pool.rs:237-242 | refuses (null, nothing changed) when a live entry of the type exists; otherwise behaves as `allocate_with_cleanup` |
| CorePool.Pool.Allocate | src/core/pool.rs:340-347 | `allocate` returns the cleanup's data pointer and stores the value there |
| CorePool.Pool.AllocateUnique | src/core/pool.rs:354-359 | refuses while a live `Item<T>` entry exists, so there is at most one per type; on success `get_unique` gives the stored value |
| CorePool.Pool.GetUnique | src/core/pool.rs:365-372 | gives a value exactly when some live `Item<T>` entry exists, and that value is the one stored under it |
| CorePool.Pool.GetUniqueMut | src/core/pool.rs:378-385 | gives the address of the live unique value, which holds `UniqueValue` |
| CorePool.Pool.WriteValue | src/core/pool.rs:378-385 | a write through the `&mut T` changes exactly that value |
| CorePool.Pool.RemoveCleanup | src/core/pool.rs:250-258 | succeeds exactly when a lookup finds an entry. The entry's handler then runs once, on its data, and both handler and data are nulled: <br>• a later lookup of the same unique type finds nothing; <br>• a later lookup of the same value finds nothing |
| CorePool.Pool.Remove | src/core/pool.rs:395-397 | removes the entry holding the value, dropping it once; a second removal finds nothing |
| CorePool.Pool.RemoveUnique | src/core/pool.rs:403-405 | succeeds exactly when a unique value exists; it is dropped once and `get_unique` gives `None` afterwards |
| CorePool.Pool.Resize | src/core/pool.rs:416-438 | keeps the pointer and moves `d.last` to ptr + new size exactly when the block ends at `d.last`, fits before `d.end` and is aligned; otherwise it allocates anew, copies min(old, new) bytes and deallocates the old block (nothing is copied or freed when allocation fails) |
| CorePool.Pool.GrowZeroed | src/core/pool.rs:84-104 | succeeds exactly when the resize does, returning the same address when it grows in place and the allocator's otherwise; `last` and the freed list change as for the resize; bytes [0, old) of the result are the old contents, bytes [old, new) are zero, and every byte outside the result is unchanged |
| HttpRequest.Request.constructor | src/http/request.rs:170-173 | a request starts with every module slot null |
| HttpRequest.Request.SetModuleCtx | src/http/request.rs:183-190 | afterwards `get_module_ctx` gives the value, and every other slot is unchanged |
| HttpRequest.InternalRedirectCall | src/http/request.rs:297-316 | for a non-empty location, `ngx_http_named_location` is used exactly when it starts with `@`, otherwise `ngx_http_internal_redirect`; the result is always `NGX_DONE` |
| HttpRequest.AsStr | src/http/request.rs:553-573 | every name is a non-empty upper-case ASCII string |
| HttpRequest.AsStrInjective | src/http/request.rs:553-573 | different methods have different names |
| HttpRequest.FromNgx | src/http/request.rs:579-601 | the code is first cut to its low 32 bits (`t as _` into the `u32` constants); a recognised verb is exactly the one whose `NGX_HTTP_*` code those bits are (`CONNECT` only from nginx 1.21.1); `UNKNOWN` exactly when no recognised verb has that code |
| HttpRequest.FromNgxLow32 | src/http/request.rs:580 | codes that differ by 2^32 give the same method |
| HttpRequest.FromNgxOfCode | src/http/request.rs:579-601 | `from_ngx` inverts the code mapping on every recognised verb |
| HttpRequest.EqStrOfName | src/http/request.rs:625-651 | a method equals another method's name exactly when they are the same method |
| HttpRequest.PartArr | src/http/request.rs:436-445 | a part yields its first `nelts` elements; a part with `nelts == 0` yields none |
| HttpRequest.NgxListIterator.constructor | src/http/request.rs:452-457 | the iterator starts at index 0 of the first part, with the whole chain to yield |
| HttpRequest.NgxListIterator.Next | src/http/request.rs:467-487 | panics on the index exactly when the current part is used up and the part after it is empty; otherwise yields the head of what remains and removes it, moving to the next part when one is used up; once nothing remains it yields `None` and `part` becomes `None` |
| HttpRequest.UnyieldedNextPart | src/http/request.rs:470-478 | at the end of a part with a successor, what is left starts at index 0 of the successor |
| HttpRequest.UnyieldedLastPart | src/http/request.rs:474-476 | at the end of the last part nothing is left |
| HttpRequest.CollectHeaders | src/http/request.rs:452-487 | iterating a fresh iterator panics exactly when some part after the first is empty, having yielded a prefix of the elements; otherwise it yields every element of every part, in order, part after part, and then `None` |
| HttpRequestContext.Create | src/http/request_context.rs:8-17 | on allocation success, the new entry's pointer is stored in the module's slot, overwriting any earlier one, and is returned, so `exists` holds; on failure nothing changes; other slots are never touched |
| HttpRequestContext.Remove | src/http/request_context.rs:20-26 | afterwards `exists` is false; when a context was present, the slot is nulled and its pool entry is removed, dropping it once; when none was present nothing changes |
| CoreStatus.IsOk | src/core/status.rs:13-18 | `is_ok` holds exactly when the code is `NGX_OK` |
| CoreStatus.ToNgxIntRoundTrip | src/core/status.rs:26-30 | converting to `ngx_int_t` and wrapping again are mutually inverse |
| CoreStatus.MakeOpt | src/core/status.rs:72-79 | `None` exactly for `NGX_ERROR`, otherwise `Some(code)` |
| CoreStatus.MakeOptUnwrapOr | src/core/status.rs:72-79 | `unwrap_or(NGX_ERROR)` undoes `ngx_make_opt` |
| CoreStatus.MakeOptInjective | src/core/status.rs:72-79 | different codes have different images |
| CoreStatus.OptConstantsAgree | src/core/status.rs:81-95 | each `NGX_O_*` constant is `ngx_make_opt` of its code; `NGX_O_ERROR` is `None` |
| Results.UnwrapOr | src/core/status.rs:72-79 | `unwrap_or` gives the value, or the default for `None` |
| LogInterop.ToNgxLevel | src/log/interop.rs:55-64 | Error → ERR, Warn → WARN, Info → INFO; exactly Debug and Trace map to DEBUG |
| LogInterop.ToNgxLevelMonotone | src/log/interop.rs:55-64 | a more verbose level never maps to a less verbose nginx level |
| LogInterop.Enabled | src/log/interop.rs:111-125 | `enabled` is: <br>• false without a logger; <br>• for `Cycle`, the rule with mask `NGX_LOG_DEBUG_CORE` on the cycle log; <br>• for `Specific`, the rule with its own mask and log. <br>The rule: below Debug, mapped level < `log_level`; Debug and Trace, `log_level & mask != 0` |
| LogInterop.EnabledMonotone | src/log/interop.rs:120-121 | below Debug, a record enabled at some level is enabled at every less verbose level |
| LogInterop.DebugTraceAgree | src/log/interop.rs:122-124 | Debug and Trace are filtered identically, by the mask alone |
| LogInterop.MaxLevelFor | src/log/interop.rs:84-90 | Trace with `log-trace`; Debug with nginx debug or `log-debug`; Info otherwise |
| LogInterop.InitSpec | src/log/interop.rs:77-93 | only the first `init` has an effect: it sets the calling thread's cell to `Cycle` and the maximum level; nothing else changes |
| LogInterop.InitOnce | src/log/interop.rs:79-92 | a second `init`, from any thread and with any features, changes nothing |
| LogInterop.EnterSpec | src/log/interop.rs:96-103 | `enter` runs `init`, installs `Specific(mask, log)` in the calling thread's cell, and returns the old cell as the scope; other threads are untouched |
| LogInterop.ExitSpec | src/log/interop.rs:69-75 | dropping the scope puts the saved cell back, on that thread only |
| LogInterop.Routed | src/log/interop.rs:160-164 | below Debug, a record goes to `log_error` at the mapped level; otherwise it goes to `log_debug` |
| LogInterop.LogSpec | src/log/interop.rs:127-165 | `log` behaves as follows: <br>• without a logger, it sets the none-used flag and writes nothing; <br>• a disabled record changes nothing; <br>• an enabled record is written to the scope's log, preceded by the dropped-messages notice exactly when none-used is set and the notice was not yet reported |
| LogInterop.RunScriptKeepsCells | src/log/interop.rs:69-178 | code that opens nested scopes, once `init` has run, gives its thread its cell back and never touches other threads' cells |
| LogInterop.WithLogRestores | src/log/interop.rs:172-178 | after `with_log` the cell is what it was before (or `Cycle`, when that call ran `init`) |
| LogInterop.ScopedRecordGoesToScopeLog | src/log/interop.rs:96-165 | inside `with_log(mask, log, ..)`, an enabled record's last write goes to `log`; a disabled one writes nothing |
| LogInterop.CountNotices | src/log/interop.rs:146-158 | the number of notices among the writes is at most their number; `LogInterop.NoticeAtMostOnce` states that it is at most one |
| LogInterop.ApplyKeepsNoticeInv | src/log/interop.rs:127-165 | every operation keeps this invariant: one notice once reported, none before, and reported only after none-used |
| LogInterop.ExecKeepsNoticeInv | src/log/interop.rs:146-158 | any sequence of operations from the start keeps the notice invariant |
| LogInterop.NoticeAtMostOnce | src/log/interop.rs:146-158 | whatever the threads do, the notice is written at most once, and only after a logger-less log call |
| LogInterop.ThreadLogger.constructor | src/log/interop.rs:40-46 | the globals start empty: no cells, flags clear, not initialised |
| LogInterop.ThreadLogger.Init | src/log/interop.rs:77-93 | the new state is `InitSpec` of the old |
| LogInterop.ThreadLogger.Enter | src/log/interop.rs:96-103 | the new state and the scope are `EnterSpec` of the old state |
| LogInterop.ThreadLogger.Exit | src/log/interop.rs:69-75 | the new state is `ExitSpec` of the old |
| LogInterop.ThreadLogger.Log | src/log/interop.rs:127-165 | the new state is `LogSpec` of the old |
| LogInterop.ThreadLogger.Run | src/log/interop.rs:172-178 | running nested logging code gives `RunScript` of the old state |
| LogInterop.ThreadLogger.WithLog | src/log/interop.rs:170-178 | the new state is `WithLogSpec`: enter, the closure, then restore |
| Text.TrimStart | nginx-sys/build/main.rs:69 | removes only leading whitespace, and the result does not start with whitespace |
| Text.TrimEnd | nginx-sys/build/main.rs:69 | removes only trailing whitespace, and the result does not end with whitespace |
| Text.Trim | nginx-sys/build/main.rs:69 | the result is the input with only whitespace removed from its front and from its back, and no whitespace is left at either end |
| Text.StripSuffix | nginx-sys/build/main.rs:69 | `Some` exactly when the string ends with the suffix; then the result plus the suffix is the string |
| Text.StripPrefix | nginx-sys/build/main.rs:95 | `Some` exactly when the string starts with the prefix; then the prefix plus the result is the string |
| Text.FindFirst | nginx-sys/build/main.rs:73 | `find` returns the first occurrence, and `None` only when there is none |
| Text.JoinSplit | nginx-sys/build/main.rs:73 | joining the pieces of `split` with the separator gives the string back |
| Text.SplitPiecesAvoidSep | nginx-sys/build/main.rs:73 | no piece of a split contains the separator |
| Text.SplitJoin | nginx-sys/build/bindgen_callbacks.rs:95-101 | splitting a list joined with a one-character separator that no element contains gives the list back |
| Text.Words | nginx-sys/build/bindgen_callbacks.rs:135 | `split_ascii_whitespace` yields only non-empty, blank-free words |
| Text.WordsOfJoin | nginx-sys/build/bindgen_callbacks.rs:135 | splitting words joined by single blanks gives them back |
| BuildMain.ExtractIncludePart | nginx-sys/build/main.rs:68-70 | without a trailing backslash the line is unchanged; with one, the result is the rest trimmed, shorter than the line and with no whitespace at either end |
| BuildMain.ExtractAfterIFlagNone | nginx-sys/build/main.rs:72-78 | `extract_after_i_flag` gives `None` exactly when `-I ` occurs nowhere in the line |
| BuildMain.IFlagPiece | nginx-sys/build/main.rs:72-78 | otherwise, it cleans up the text that starts right after the first `-I ` and runs, free of `-I `, up to the next one or the end |
| BuildMain.Infos | nginx-sys/build/main.rs:93-110 | each line is classified by the two tests the loop applies to it |
| BuildMain.CollectFrom | nginx-sys/build/main.rs:104-110 | once inside `ALL_INCS`, collection gives at most one path per line |
| BuildMain.CollectTakesWhile | nginx-sys/build/main.rs:104-110 | the continuation lines contribute their `-I ` path, one each, up to the first line without one |
| BuildMain.CollectStopsAtGap | nginx-sys/build/main.rs:107-109 | lines after the first line without `-I ` are ignored, even if they contain one |
| BuildMain.NoAllIncsNoIncludes | nginx-sys/build/main.rs:93-102 | without an `ALL_INCS` line nothing is collected |
| BuildMain.NoAllIncsFrom | nginx-sys/build/main.rs:93-102 | from a point with no later `ALL_INCS` line, nothing is collected |
| BuildMain.IncludesSkipTo | nginx-sys/build/main.rs:94-102 | lines before the first `ALL_INCS` line contribute nothing |
| BuildMain.IncludesFromFirstAllIncs | nginx-sys/build/main.rs:92-111 | the result is the `ALL_INCS` line's path (if it has one) followed by the continuation lines' paths, in line order, stopping at the first line without `-I ` |
| BuildMain.CollectIncludes | nginx-sys/build/main.rs:92-111 | the loop with its flag, `continue` and `break` collects exactly `IncludesFrom` of the classified lines |
| BuildMain.ParseIncludes | nginx-sys/build/main.rs:92-111 | the loop over the Makefile's lines collects exactly `Includes(lines)` |
| BuildMain.JoinPath | nginx-sys/build/main.rs:129 | `join` keeps the directory as a prefix and the path as a suffix, adding `/` exactly when the directory does not already end in one |
| BuildMain.ResolvePath | nginx-sys/build/main.rs:125-131 | absolute paths come out unchanged; relative ones are joined onto the directory |
| BuildMain.ParseIncludesFromMakefile | nginx-sys/build/main.rs:67-133 | one resolved path per collected include, in line order |
| BuildMain.ClangArgs | nginx-sys/build/main.rs:40-43 | each path becomes `-I` + path, in order |
| BindgenCallbacks.Bits | nginx-sys/build/bindgen_callbacks.rs:6-16 | the `u8` value of a flag set fits the five flag bits |
| BindgenCallbacks.ImplementsIffBitSet | nginx-sys/build/bindgen_callbacks.rs:18-28 | `implements(t)` holds exactly when `t`'s bit is set |
| BindgenCallbacks.Lookup | nginx-sys/build/bindgen_callbacks.rs:33 | `None` exactly when no entry has the name; otherwise an entry with the name holds the flags |
| BindgenCallbacks.Insert | nginx-sys/build/bindgen_callbacks.rs:78 | after insertion, names stay distinct, the name holds the new flags and other names are unchanged |
| BindgenCallbacks.Extend | nginx-sys/build/bindgen_callbacks.rs:78 | `extend` keeps names distinct |
| BindgenCallbacks.ExtendLookup | nginx-sys/build/bindgen_callbacks.rs:78 | after `extend`, a name holds the flags of its last added occurrence, or else its old flags |
| BindgenCallbacks.NewCrate | nginx-sys/build/bindgen_callbacks.rs:37-42 | `Crate::new` keeps the name and builds a map with distinct names |
| BindgenCallbacks.TypeNames | nginx-sys/build/bindgen_callbacks.rs:44-46 | one name per map entry, in the map's order |
| BindgenCallbacks.CrateUses | nginx-sys/build/bindgen_callbacks.rs:48-61 | `None` exactly when the crate has no types; otherwise the `pub use <crate>::{<names>};` line |
| BindgenCallbacks.UsesListsEveryType | nginx-sys/build/bindgen_callbacks.rs:48-61 | when no name contains a comma, the braces list exactly the crate's type names, in order |
| BindgenCallbacks.IndexOfCrate | nginx-sys/build/bindgen_callbacks.rs:77 | the first crate with the name, or `None` when there is none |
| BindgenCallbacks.NgxBindgenCallbacks.constructor | nginx-sys/build/bindgen_callbacks.rs:68-70 | a new registry is empty |
| BindgenCallbacks.NgxBindgenCallbacks.AddExternalTypes | nginx-sys/build/bindgen_callbacks.rs:72-82 | an existing crate of that name is extended; otherwise a new crate is appended; crate names stay unique |
| BindgenCallbacks.FindSpec | nginx-sys/build/bindgen_callbacks.rs:84-93 | the first crate in registry order whose map has the name, with the stored name and flags; `None` when no crate has it |
| BindgenCallbacks.NgxBindgenCallbacks.Find | nginx-sys/build/bindgen_callbacks.rs:84-93 | the nested loops with early return compute `FindSpec` |
| BindgenCallbacks.FindAtOrBefore | nginx-sys/build/bindgen_callbacks.rs:84-93 | whenever some crate has the name, `find` succeeds at that crate or an earlier one |
| BindgenCallbacks.AllUses | nginx-sys/build/bindgen_callbacks.rs:103-109 | at most one `uses` line per crate |
| BindgenCallbacks.BlocklistNamesEveryType | nginx-sys/build/bindgen_callbacks.rs:95-101 | when no name contains `|`, the blocklist splits back into every registered type name |
| BindgenCallbacks.AddToBuilder | nginx-sys/build/bindgen_callbacks.rs:111-126 | the blocklist and the `uses` lines are added only when non-empty; the callbacks always |
| BindgenCallbacks.ResolveBlocklisted | nginx-sys/build/bindgen_callbacks.rs:135-142 | the result is a word; it is the panic case exactly when the blank-split name has none of the shapes `const struct n`, `const n`, `struct n`, `n` |
| BindgenCallbacks.ResolveShapes | nginx-sys/build/bindgen_callbacks.rs:136-140 | each of the four shapes resolves to the bare name |
| BindgenCallbacks.ImplementsSpec | nginx-sys/build/bindgen_callbacks.rs:130-148 | panics exactly on an unhandled shape; `Some(Yes)` exactly when the name is found and its flags implement the trait; otherwise `None` |
| BindgenCallbacks.NgxBindgenCallbacks.BlocklistedTypeImplementsTrait | nginx-sys/build/bindgen_callbacks.rs:130-148 | computes `ImplementsSpec` over the registry |
| SharedDict.Keys | examples/shared_dict.rs:345 | the key set holds exactly the entries' keys |
| SharedDict.LessIrreflexive | examples/shared_dict.rs:160 | the key order is irreflexive |
| SharedDict.LessTransitive | examples/shared_dict.rs:160 | the key order is transitive |
| SharedDict.LessTotal | examples/shared_dict.rs:160 | the key order is total on distinct strings |
| SharedDict.Lookup | examples/shared_dict.rs:253-256 | `get` gives `None` exactly for an absent key |
| SharedDict.LookupSorted | examples/shared_dict.rs:253-256 | in the map, `get` of an entry's key gives its value |
| SharedDict.Insert | examples/shared_dict.rs:318 | inserting adds the key to the key set |
| SharedDict.InsertSorted | examples/shared_dict.rs:318 | inserting keeps the map in key order |
| SharedDict.LookupInsert | examples/shared_dict.rs:318 | after inserting, the key gives the new value and every other key is unchanged |
| SharedDict.Remove | examples/shared_dict.rs:301 | removing never adds entries; `SharedDict.RemoveEffect` states exactly what it removes and keeps |
| SharedDict.RemoveEffect | examples/shared_dict.rs:301 | removing keeps key order, drops exactly that key and leaves every other key's value |
| SharedDict.Dict.constructor | examples/shared_dict.rs:160-161 | `RbTreeMap::try_new_in` gives an empty map |
| SharedDict.Dict.RemoveKey | examples/shared_dict.rs:301 | the map becomes `Remove` of the old one and stays in key order |
| SharedDict.Dict.TryInsert | examples/shared_dict.rs:318 | it succeeds exactly when the key is already present or a node can be allocated; then the map becomes `Insert` of the old one, otherwise it is unchanged; it stays in key order |
| SharedDict.Dict.Clear | examples/shared_dict.rs:384-387 | the map becomes empty |
| SharedDict.ShmZone.constructor | examples/shared_dict.rs:156-159 | a zone starts with null data |
| SharedDict.ShmZone.GetShared | examples/shared_dict.rs:156-172 | no slab pool gives nothing; a map is created only while `data` is null (if allocation succeeds), and the stored map is returned from then on |
| SharedDict.ShmZone.ZoneInit | examples/shared_dict.rs:158-183 | `get_shared` leaves `data` alone without a slab pool, keeps a stored map, and stores a fresh one only while `data` is null and allocation succeeds; `NGX_OK` exactly when the map was there or could be created, and then the map holds the old entries (none when it is new); `NGX_ERROR` otherwise |
| SharedDict.Digit | examples/shared_dict.rs:354 | the decimal digit character of a number below 10 |
| SharedDict.DecimalString | examples/shared_dict.rs:354 | `{values}` is decimal digits without a leading zero |
| SharedDict.DecimalRoundTrip | examples/shared_dict.rs:354 | reading the formatted count back gives the count |
| SharedDict.ILog10 | examples/shared_dict.rs:350 | `checked_ilog10` of non-zero `n` is the `e` with 10^e ≤ n < 10^(e+1) |
| SharedDict.DecimalLength | examples/shared_dict.rs:350-354 | a non-zero count has `ilog10 + 1` digits, and zero has one |
| SharedDict.Item | examples/shared_dict.rs:357 | an entry's item is 5 characters longer than its key and value together |
| SharedDict.Render | examples/shared_dict.rs:354-358 | the value starts with `"<count>; "`, followed by each entry's `"<key> = <value>; "` in iteration order |
| SharedDict.ItemsCons | examples/shared_dict.rs:356-358 | the items are written from the first entry on, one after another |
| SharedDict.ItemsLength | examples/shared_dict.rs:345-348 | the items are exactly as long as the first loop counts |
| SharedDict.ReservedIsExact | examples/shared_dict.rs:342-358 | the capacity reserved up front equals the length of the string written |
| SharedDict.CountEntries | examples/shared_dict.rs:342-348 | the first loop counts the entries, and sums 5 + key + value lengths |
| SharedDict.WriteItems | examples/shared_dict.rs:356-358 | the second loop appends each entry's item, in order |
| SharedDict.FormatEntries | examples/shared_dict.rs:338-358 | the string written is `Render` of the entries, and the reserved length is exactly its length |
| SharedDict.GetEntries | examples/shared_dict.rs:324-373 | the map is kept or created as by `get_shared`, and its entries are not changed; `NGX_OK`, with the rendering of the entries before the call, valid, no-cacheable and found, exactly when there is a slab pool, the map was there or could be created, and the reservation succeeds; otherwise the value is untouched |
| SharedDict.SetEntries | examples/shared_dict.rs:375-391 | the map is kept or created as by `get_shared`; it is replaced by an empty one exactly when there is a slab pool, the map was there or could be created, and the new tree can be allocated; otherwise it keeps the entries it had |
| SharedDict.RenderEmpty | examples/shared_dict.rs:354-358 | after clearing, the entries variable reads `"0; "` |
| SharedDict.CheckVariableNameAsWritten | examples/shared_dict.rs:214-222 | as written: the empty name panics; a name not starting with `$` is rejected; otherwise the name without `$` is registered |
| SharedDict.EmptyNamePanics | examples/shared_dict.rs:216 | the empty argument makes the check panic |
| SharedDict.CheckVariableName | examples/shared_dict.rs:214-222 | as intended: never panics; accepts exactly the names starting with `$`, and `$` plus the registered name is the argument |
| SharedDict.CheckVariableNameAgrees | examples/shared_dict.rs:214-222 | the corrected check agrees with the written one wherever that one does not panic |
| SharedDict.CheckVariableNameStrips | examples/shared_dict.rs:221-222 | registering `$n` gives `n` |
| SharedDict.AddVariableAsWritten | examples/shared_dict.rs:185-242 | as written: panics exactly when allocation and compilation succeed and the name is empty; succeeds exactly when allocation, compilation and `ngx_http_add_variable` succeed and the name starts with `$`; then `$` plus the registered name is the argument |
| SharedDict.AddVariable | examples/shared_dict.rs:185-242 | as intended: never panics; success exactly when allocation, compilation, the name check and `ngx_http_add_variable` all succeed; then `$` plus the registered name is the argument |
| SharedDict.AddVariableAgrees | examples/shared_dict.rs:185-242 | the corrected handler agrees with the written one wherever that one does not panic |
| SharedDict.GetVariable | examples/shared_dict.rs:244-281 | a failed key evaluation returns `None` with the value untouched; a missing or uncopyable value sets `not_found` and returns `None`; otherwise the value is filled in, valid and cacheable, and the result is `NGX_OK` |
| SharedDict.GetAfterInsert | examples/shared_dict.rs:267-318 | a key set through the variable reads back its value |
| SharedDict.GetAfterRemove | examples/shared_dict.rs:267-301 | a deleted key reads as not found |
| SharedDict.SetVariable | examples/shared_dict.rs:283-322 | with a key, the map is kept or created as by `get_shared`; the handler succeeds exactly when there is a key, a slab pool, and a map that was there or could be created, and the method is `DELETE` or both copies into the slab succeed; then `DELETE` removes the key from the old entries and any other method inserts key → value; a `try_insert` that fails leaves the map unchanged and the handler still succeeds; on failure the entries are unchanged; without a key nothing happens |
| AsyncExample.AsciiLower | examples/async.rs:111 | ASCII upper-case letters are lowered; every other character is kept |
| AsyncExample.OnSpellings | examples/async.rs:111 | exactly `on`, `On`, `oN` and `ON` equal `on` up to ASCII case |
| AsyncExample.EnableOf | examples/async.rs:104-121 | a UTF-8 value enables exactly when it is one of the spellings of `on` |
| AsyncExample.ModuleConfig.constructor | examples/async.rs:41-44 | the default configuration is disabled |
| AsyncExample.ModuleConfig.SetEnable | examples/async.rs:97-124 | a non-UTF-8 argument is a configuration error and leaves the flag; otherwise `ConfOk`, with the flag set exactly for `on` in any case |
| AsyncExample.MergeSpec | examples/async.rs:88-95 | a merged level is enabled exactly when it or the level above is |
| AsyncExample.ModuleConfig.Merge | examples/async.rs:88-95 | the flag becomes `child || prev`; the merge always returns `Ok` |
| AsyncExample.MergeDown | examples/async.rs:88-95 | merging down the levels gives one flag per level; what each flag means is stated by `AsyncExample.MergeDownEnabled` |
| AsyncExample.MergeDownEnabled | examples/async.rs:88-95 | after merging, a level is enabled exactly when it or some level above it says `on` |
| AsyncExample.U32 | examples/async.rs:142-148 | `rc as u32` keeps the low 32 bits: non-negative values below 2^32 unchanged, negative ones plus 2^32 |
| AsyncExample.AccessHandler | examples/async.rs:126-149 | the handler returns as follows: <br>• `NGX_DECLINED` when disabled, before anything else; <br>• `NGX_DONE` without reading the body when a task is attached; <br>• otherwise it reads the body and returns rc exactly when `rc as u32 ≥ 300` (or rc is `NGX_DONE`), else `NGX_DONE` |
| AsyncExample.AccessHandlerRc | examples/async.rs:142-148 | for a 32-bit rc, any negative rc or rc ≥ `NGX_HTTP_SPECIAL_RESPONSE` is returned as is, and the rest becomes `NGX_DONE` |
| AsyncExample.AccessHandlerWraps | examples/async.rs:142-148 | an rc of 2^32 + 200 wraps below 300 and becomes `NGX_DONE` |
| AsyncExample.TimerRule | examples/async.rs:236-247 | not delayed, active and not ready adds the timer; otherwise a set timer is deleted; a delayed event does neither |
| AsyncExample.WriteEventHandler | examples/async.rs:194-248 | the calls made, in order: <br>• only `ngx_http_finalize_request(NGX_OK)` exactly when the spawned task is finished; <br>• only the connection error on a timeout; <br>• otherwise the output filter first; <br>• the timer is added or deleted exactly under the timer rule, after a non-error filter and an OK `ngx_handle_write_event` |
| AsyncExample.WriteEventExclusive | examples/async.rs:194-248 | the handler never both adds and deletes the timer, and finalizes exactly on a finished task |

## Left out

- Real threads, `ngx_thread_tid`, the crossbeam channel's internals and `ngx_notify`: the thread is a parameter, the channel a sequence, `ngx_notify` a trace event.
- A runnable scheduling more work while `notify_handler` drains: running a runnable is a single trace event.
- A failed channel `send` (`expect("send")`): the unbounded channel never fails while its receiver lives.
- `async_task` internals: tasks are ids, and which are finished (with their rc) is a parameter. Not modelled: cancel-on-drop, waker reference counts, `block_on` (called only on finished tasks).
- The allocation `Run` performs: in `Run`, allocation of the context always succeeds.
- `AsyncSubRequestBuilder`'s flags word: it is the set of flags that were OR-ed in, with the bit layout stated separately by `FlagsMask`.
- `HttpAsyncRequest.Handler`: the worker future it spawns is not modelled; only the spawned task id it returns is.
- Foreign calls become parameters or trace events:
  - `ngx_palloc`, `ngx_pool_cleanup_add`, `ngx_pmemalign`, `ngx_pnalloc`, `ngx_pfree`;
  - `ngx_http_subrequest`, `ngx_post_event`, `ngx_http_read_client_request_body`;
  - `ngx_http_finalize_request`, `ngx_handle_write_event`, `ngx_add_timer`, `ngx_del_timer`.
- Real pointer validity and `Pin`: not modelled.
- `CorePool.Pool.AllocateWithCleanup`: sizes are not modelled, so the zero-sized `T` case is left out. Then `ngx_pool_cleanup_add(p, 0)` links an entry with null `data` and the function returns `None` with the chain changed (after a `ptr::write` through null, which Rust does not allow).
- nginx's allocator internals, pool destruction, `grow`/`shrink` and the buffer helpers of `Pool`: not modelled.
- `CorePool.Pool.Resize`: the allocator is abstract, so on the reallocation path `last` is stated unchanged. A real `ngx_palloc` served from the same block moves `d.last`; `CorePool.Pool.GrowZeroed` inherits this.
- `RequestContext::get`/`get_mut`: they are `Request.GetModuleCtx` on the slot.
- `Method::from_bytes`: it is `todo!()` in the source.
- Logging:
  - the formatting of log messages and the actual nginx log writers;
  - `log::set_logger`'s result, which is unwrapped;
  - the `log` crate's own maximum-level filter in front of `enabled`;
  - `LogFut` / `instrument_log`, which apply `enter` around each poll.
- `LogInterop.Enabled`: the source compares `mapped level < log_level`, and the model keeps this comparison as written.
- Build script I/O: `read_to_string`, `lines()`, `canonicalize`, environment variables, bindgen generation and `to_string_lossy`. The model takes the Makefile's lines and the canonical directory as given.
- `BuildMain.CollectIncludes`: the loop is stated over the two line tests as function parameters. Its specification classifies every line up front; the loop applies the tests lazily, with the same result.
- `BindgenCallbacks.Lookup`: a `HashMap` is an entry list with distinct names. Its iteration order (which decides `find`'s inner loop, the blocklist and the `uses` lines) is modelled as insertion order.
- `SharedDict.Insert`: `RbTreeMap::try_insert` is not part of this model's source. The model assumes that an existing key has its value replaced in its node without an allocation. It assumes that the only failure is allocating the node for a new key, which leaves the map alone.
- `SharedDict.GetEntries`: a failing `write!` is not modelled as a separate case. The string's capacity is reserved as exactly the rendering's length (`SharedDict.ReservedIsExact`), so the writes never allocate.
- `SharedDict` concurrency (`RwLock`), `SlabPool` and `NgxString`'s display: not modelled. Keys and values stand for their bytes, written one for one.
- `SharedDict.FormatEntries`: `len` is unbounded, and `usize` overflow of the length sum is not modelled.
- `SharedDict.GetVariable`: it works over the map's entries. Getting the shared map, including its lazy creation and failure, is stated for `SharedDict.ShmZone.ZoneInit`, `SharedDict.GetEntries`, `SharedDict.SetEntries` and `SharedDict.SetVariable`.
- Handler registration and directive bookkeeping of the example modules: `add_zone` (`ngx_parse_size`, `ngx_shared_memory_add`), pre- and postconfiguration, and the content event handler.
- `Instant` timing in the `async` example.
- The timer future and the resolver: they are not part of this model.

## Findings

| source | as written | input that shows it | evidently intended | confidence | as-written member | corrected member |
|---|---|---|---|---|---|---|
| examples/shared_dict.rs:216 | `name.as_bytes()[0]` is read without checking the length, so an empty variable name panics while nginx reads its configuration | the directive `shared_dict $key "";` | reject the empty name with "invalid variable name", like any other name without `$` | not executed | SharedDict.CheckVariableNameAsWritten, SharedDict.AddVariableAsWritten, SharedDict.EmptyNamePanics | SharedDict.CheckVariableName, SharedDict.AddVariable |
