/**
 * The bridge between nginx's phase handlers and the async runtime: the
 * per-request handler machine keyed by a pool-unique context, and the
 * wrapper future that posts the connection's write event on completion.
 */
module HttpAsyncRequest {
  import opened Results
  import opened NgxConsts
  import opened CorePool
  import opened AsyncSpawn

  /** `NgxHttpPhases`, the phases a module can register a handler in. */
  datatype HttpPhase =
    | PostRead | ServerRewrite | FindConfig | Rewrite | PostRewrite | Preaccess
    | Access | PostAccess | PreContent | Content | Log

  /** The constant-evaluation panic of `async_phase`. */
  datatype PhaseError = ContentPhaseNotSupported

  /** `async_phase`: every phase but the content phase is accepted unchanged. */
  function AsyncPhase(phase: HttpPhase): (r: Result<HttpPhase, PhaseError>)
    ensures r.Err? <==> phase == Content
    ensures r.Ok? ==> r.value == phase
  {
    if phase == Content then Err(ContentPhaseNotSupported) else Ok(phase)
  }

  // ---------------------------------------------------------------------
  // The phase handler of an `AsyncHandler`
  // ---------------------------------------------------------------------

  datatype AsyncHandlerError = ContextCreationFailed | NoAsyncLauncher | ContextDeletionFailed

  /** `AsyncRequestContext`: the handle of the spawned task running the worker, if any. */
  datatype AsyncCtx = AsyncCtx(launcher: Option<TaskId>)

  /** The type tag of `AsyncRequestContext`, stored with `allocate_unique`. */
  const ASYNC_CTX: TypeTag := Ty("AsyncRequestContext")

  /** What one handler call returns, the request's context afterwards, and whether it spawned a task. */
  datatype HandlerOutcome = HandlerOutcome(result: Result<int, AsyncHandlerError>, ctx: Option<AsyncCtx>, spawned: bool)

  /**
   * One call of the handler on a request whose unique context is `ctx`.
   * `allocOk` says whether allocating a context would succeed, `next` is
   * the spawned task a spawn would create, and `done` maps each finished task to
   * its rc (a task spawned on the event thread may run to completion
   * inside `spawn`).
   */
  function HandlerSpec(ctx: Option<AsyncCtx>, allocOk: bool, next: TaskId, done: map<TaskId, int>): (o: HandlerOutcome)
    ensures o.spawned <==> ctx.None? && allocOk
    ensures o.result == Err(ContextCreationFailed) <==> ctx.None? && !allocOk
    ensures o.result == Err(NoAsyncLauncher) <==> ctx == Some(AsyncCtx(None))
    ensures o.result != Err(ContextDeletionFailed)
    ensures ctx.None? && !allocOk ==> o.ctx.None?
    ensures ctx == Some(AsyncCtx(None)) ==> o.ctx == ctx
    ensures ctx.Some? && ctx.value.launcher.Some? && ctx.value.launcher.value !in done ==>
      o.result == Ok(NGX_AGAIN) && o.ctx == ctx
    ensures ctx.Some? && ctx.value.launcher.Some? && ctx.value.launcher.value in done ==>
      o.result == Ok(done[ctx.value.launcher.value]) && o.ctx.None?
    ensures ctx.None? && allocOk && next !in done ==> o.result == Ok(NGX_AGAIN) && o.ctx == Some(AsyncCtx(Some(next)))
    ensures ctx.None? && allocOk && next in done ==> o.result == Ok(done[next]) && o.ctx.None?
  {
    var spawned := ctx.None? && allocOk;
    var c := if ctx.Some? then ctx else if allocOk then Some(AsyncCtx(Some(next))) else None;
    if c.None? then HandlerOutcome(Err(ContextCreationFailed), None, false)
    else if c.value.launcher.None? then HandlerOutcome(Err(NoAsyncLauncher), c, spawned)
    else if c.value.launcher.value in done then HandlerOutcome(Ok(done[c.value.launcher.value]), None, spawned)
    else HandlerOutcome(Ok(NGX_AGAIN), c, spawned)
  }

  /** The results of successive handler calls, the final context, and how many tasks were spawned. */
  datatype RunResult = RunResult(results: seq<Result<int, AsyncHandlerError>>, ctx: Option<AsyncCtx>, spawns: nat)

  /**
   * The handler called once per entry of `calls` (the finished tasks at
   * the time of that call), with allocation always succeeding.
   */
  function Run(ctx: Option<AsyncCtx>, next: TaskId, calls: seq<map<TaskId, int>>): (r: RunResult)
    ensures |r.results| == |calls|
    decreases |calls|
  {
    if calls == [] then RunResult([], ctx, 0)
    else
      var o := HandlerSpec(ctx, true, next, calls[0]);
      var rest := Run(o.ctx, if o.spawned then next + 1 else next, calls[1..]);
      RunResult([o.result] + rest.results, rest.ctx, (if o.spawned then 1 else 0) + rest.spawns)
  }

  /** `n` results of `NGX_AGAIN`. */
  function Again(n: nat): (s: seq<Result<int, AsyncHandlerError>>)
    ensures |s| == n && forall i :: 0 <= i < n ==> s[i] == Ok(NGX_AGAIN)
  {
    seq(n, i => Ok(NGX_AGAIN))
  }

  /**
   * With a running launcher `t`, every call returns `NGX_AGAIN` and keeps
   * the context until the first call that sees `t` finished: that one
   * returns `t`'s rc and removes the context; nothing is spawned.
   */
  lemma {:induction false} RunningUntilFinished(t: TaskId, next: TaskId, calls: seq<map<TaskId, int>>)
    requires |calls| > 0
    requires forall i :: 0 <= i < |calls| - 1 ==> t !in calls[i]
    requires t in calls[|calls| - 1]
    ensures Run(Some(AsyncCtx(Some(t))), next, calls)
         == RunResult(Again(|calls| - 1) + [Ok(calls[|calls| - 1][t])], None, 0)
    decreases |calls|
  {
    if |calls| > 1 {
      var tail := calls[1..];
      assert forall i :: 0 <= i < |tail| - 1 ==> t !in tail[i] by {
        forall i | 0 <= i < |tail| - 1 ensures t !in tail[i] {
          assert tail[i] == calls[i + 1];
        }
      }
      assert tail[|tail| - 1] == calls[|calls| - 1];
      RunningUntilFinished(t, next, tail);
      assert [Ok(NGX_AGAIN)] + Again(|tail| - 1) == Again(|calls| - 1);
    }
  }

  /**
   * The whole life of an async handler on one request: the first call
   * spawns the one task, every call until the spawned task is seen finished
   * returns `NGX_AGAIN`, that call returns the spawned task's rc, and afterwards
   * the request is back to having no context.
   */
  lemma {:induction false} HandlerLifecycle(next: TaskId, calls: seq<map<TaskId, int>>)
    requires |calls| > 0
    requires forall i :: 0 <= i < |calls| - 1 ==> next !in calls[i]
    requires next in calls[|calls| - 1]
    ensures Run(None, next, calls) == RunResult(Again(|calls| - 1) + [Ok(calls[|calls| - 1][next])], None, 1)
  {
    if |calls| > 1 {
      var tail := calls[1..];
      assert forall i :: 0 <= i < |tail| - 1 ==> next !in tail[i] by {
        forall i | 0 <= i < |tail| - 1 ensures next !in tail[i] {
          assert tail[i] == calls[i + 1];
        }
      }
      assert tail[|tail| - 1] == calls[|calls| - 1];
      RunningUntilFinished(next, next + 1, tail);
      assert [Ok(NGX_AGAIN)] + Again(|tail| - 1) == Again(|calls| - 1);
    }
  }

  /** Some live entry of the chain of type `tag` holds the value at `a`. */
  ghost predicate OwnedBy(cs: seq<Cleanup>, tag: TypeTag, a: Addr)
  {
    exists i :: 0 <= i < |cs| && cs[i].handler == Some(tag) && cs[i].data == Some(a)
  }

  /**
   * The pool after a handler call, next to the pool before it: at most one
   * entry was linked at the head, every entry of another type is where it
   * was, every value not held by an entry of `tag` is unchanged, and the
   * drop handlers that ran are at most one, of type `tag`.
   */
  ghost predicate OthersUnchanged(c0: seq<Cleanup>, c1: seq<Cleanup>, v0: map<Addr, AsyncCtx>, v1: map<Addr, AsyncCtx>,
                                  d0: seq<(TypeTag, Addr)>, d1: seq<(TypeTag, Addr)>, tag: TypeTag)
  {
    |c0| <= |c1| <= |c0| + 1
    && (forall i :: 0 <= i < |c0| && c0[i].handler != Some(tag) ==> c1[|c1| - |c0| + i] == c0[i])
    && (forall a :: a in v0 && !OwnedBy(c0, tag, a) ==> a in v1 && v1[a] == v0[a])
    && |d0| <= |d1| <= |d0| + 1 && d1[..|d0|] == d0
    && (forall k :: |d0| <= k < |d1| ==> d1[k].0 == tag)
  }

  /**
   * The first half of the handler: `get_unique_mut` of the context, or,
   * when there is none, `allocate_unique` of an empty one and, if that
   * succeeds, the spawn of the worker whose task it records. `ctx` is the
   * context's address.
   */
  method AcquireCtx(pool: Pool<AsyncCtx>, rt: Runtime, current: ThreadId, cln: Option<Addr>)
    returns (ctx: Option<Addr>)
    requires pool.Valid()
    requires cln.Some? ==> cln.value !in pool.values
    modifies pool`cleanups, pool`values, rt, rt.scheduler
    ensures pool.Valid()
    ensures ctx.Some? <==> old(pool.UniqueValue(ASYNC_CTX)).Some? || cln.Some?
    ensures ctx.Some? ==> (Find(pool.cleanups, ItemOf(ASYNC_CTX), None).Some?
      && ctx == pool.cleanups[Find(pool.cleanups, ItemOf(ASYNC_CTX), None).value].data)
    ensures ctx.Some? ==> ctx.value in pool.values && pool.UniqueValue(ASYNC_CTX) == Some(pool.values[ctx.value])
    ensures ctx.Some? ==>
      (pool.values[ctx.value]
       == if old(pool.UniqueValue(ASYNC_CTX)).Some? then old(pool.UniqueValue(ASYNC_CTX)).value else AsyncCtx(Some(old(rt.nextTask))))
    ensures old(pool.UniqueValue(ASYNC_CTX)).Some? || cln.None? ==>
      pool.cleanups == old(pool.cleanups) && pool.values == old(pool.values)
      && rt.nextTask == old(rt.nextTask) && rt.State() == old(rt.State())
    ensures old(pool.UniqueValue(ASYNC_CTX)).None? && cln.Some? ==>
      ctx == cln
      && pool.cleanups == [Cleanup(Some(ItemOf(ASYNC_CTX)), cln)] + old(pool.cleanups)
      && pool.values == old(pool.values)[cln.value := AsyncCtx(Some(old(rt.nextTask)))]
      && rt.nextTask == old(rt.nextTask) + 1
      && rt.State() == ScheduleSpec(old(rt.State()), Runnable(old(rt.nextTask), 0), current)
  {
    ctx := pool.GetUniqueMut(ASYNC_CTX);
    if ctx.None? {
      ctx := pool.AllocateUnique(ASYNC_CTX, AsyncCtx(None), cln);
      if ctx.Some? {
        var task := rt.Spawn(current);
        assert pool.cleanups[0] == Cleanup(Some(ItemOf(ASYNC_CTX)), cln);
        assert Find(pool.cleanups, ItemOf(ASYNC_CTX), None) == Some(0);
        pool.WriteValue(ctx.value, AsyncCtx(Some(task)));
      }
    }
  }

  /**
   * The second half of the handler, on the live context at `a`: no
   * launcher is an error; a running one gives `NGX_AGAIN`; a finished one
   * is taken, its rc returned and the context removed from the pool.
   */
  method FinishCall(pool: Pool<AsyncCtx>, a: Addr, done: map<TaskId, int>)
    returns (r: Result<int, AsyncHandlerError>)
    requires pool.Valid()
    requires Find(pool.cleanups, ItemOf(ASYNC_CTX), None).Some?
    requires Some(a) == pool.cleanups[Find(pool.cleanups, ItemOf(ASYNC_CTX), None).value].data
    modifies pool`cleanups, pool`values, pool`dropped
    ensures pool.Valid()
    ensures a in old(pool.values)
    ensures var l := old(pool.values[a]).launcher;
      (l.None? ==> r == Err(NoAsyncLauncher))
      && (l.Some? && l.value !in done ==> r == Ok(NGX_AGAIN))
      && (l.Some? && l.value in done ==> r == Ok(done[l.value]) && pool.UniqueValue(ASYNC_CTX).None?
                                         && |pool.dropped| == |old(pool.dropped)| + 1)
      && (!(l.Some? && l.value in done) ==>
            pool.cleanups == old(pool.cleanups) && pool.values == old(pool.values) && pool.dropped == old(pool.dropped))
    ensures OthersUnchanged(old(pool.cleanups), pool.cleanups, old(pool.values), pool.values,
                            old(pool.dropped), pool.dropped, ItemOf(ASYNC_CTX))
    ensures |pool.cleanups| == |old(pool.cleanups)|
  {
    ghost var c0, v0 := pool.cleanups, pool.values;
    var launcher := pool.values[a].launcher;
    if launcher.None? {
      r := Err(NoAsyncLauncher);
    } else if launcher.value in done {
      // `launcher.take()`, then `block_on` on the finished task.
      pool.WriteValue(a, AsyncCtx(None));
      var rc := done[launcher.value];
      var removed := pool.RemoveUnique(ASYNC_CTX);
      assert removed;
      r := Ok(rc);
      forall b | b in v0 && !OwnedBy(c0, ItemOf(ASYNC_CTX), b) ensures b in pool.values && pool.values[b] == v0[b] {
        assert b != a by {
          var k := Find(c0, ItemOf(ASYNC_CTX), None).value;
          assert c0[k].handler == Some(ItemOf(ASYNC_CTX)) && c0[k].data == Some(a);
        }
      }
    } else {
      r := Ok(NGX_AGAIN);
    }
  }

  /** The frames of the two halves compose into the frame of the whole call. */
  lemma FrameCompose(c0: seq<Cleanup>, v0: map<Addr, AsyncCtx>, d0: seq<(TypeTag, Addr)>,
                     c1: seq<Cleanup>, v1: map<Addr, AsyncCtx>,
                     c2: seq<Cleanup>, v2: map<Addr, AsyncCtx>, d2: seq<(TypeTag, Addr)>, tag: TypeTag, n: Addr, x: AsyncCtx)
    requires n !in v0
    requires c1 == [Cleanup(Some(tag), Some(n))] + c0 && v1 == v0[n := x]
    requires OthersUnchanged(c1, c2, v1, v2, d0, d2, tag) && |c2| == |c1|
    ensures OthersUnchanged(c0, c2, v0, v2, d0, d2, tag)
  {
    forall i | 0 <= i < |c0| && c0[i].handler != Some(tag) ensures c2[|c2| - |c0| + i] == c0[i] {
      assert c1[1 + i] == c0[i];
    }
    forall b | b in v0 && !OwnedBy(c0, tag, b) ensures b in v2 && v2[b] == v0[b] {
      forall i | 0 <= i < |c1| ensures !(c1[i].handler == Some(tag) && c1[i].data == Some(b)) {
        if i > 0 {
          assert c1[i] == c0[i - 1];
        }
      }
    }
  }

  /**
   * `<AH as HttpRequestHandler>::handler` on the request whose pool is
   * `pool`. `cln` is what allocating the context would return, `done` the
   * tasks that are finished (with their rc) when `is_finished` is asked.
   */
  method Handler(pool: Pool<AsyncCtx>, rt: Runtime, current: ThreadId, cln: Option<Addr>, done: map<TaskId, int>)
    returns (r: Result<int, AsyncHandlerError>)
    requires pool.Valid()
    requires cln.Some? ==> cln.value !in pool.values
    modifies pool`cleanups, pool`values, pool`dropped, rt, rt.scheduler
    ensures pool.Valid()
    ensures var o := HandlerSpec(old(pool.UniqueValue(ASYNC_CTX)), cln.Some?, old(rt.nextTask), done);
      r == o.result && pool.UniqueValue(ASYNC_CTX) == o.ctx
      && (o.spawned ==> rt.nextTask == old(rt.nextTask) + 1
                        && rt.State() == ScheduleSpec(old(rt.State()), Runnable(old(rt.nextTask), 0), current))
      && (!o.spawned ==> rt.nextTask == old(rt.nextTask) && rt.State() == old(rt.State()))
    ensures r != Err(ContextDeletionFailed)
    ensures OthersUnchanged(old(pool.cleanups), pool.cleanups, old(pool.values), pool.values,
                            old(pool.dropped), pool.dropped, ItemOf(ASYNC_CTX))
    ensures |pool.cleanups| > |old(pool.cleanups)| <==> old(pool.UniqueValue(ASYNC_CTX)).None? && cln.Some?
    ensures var o := HandlerSpec(old(pool.UniqueValue(ASYNC_CTX)), cln.Some?, old(rt.nextTask), done);
      |pool.dropped| > |old(pool.dropped)| <==> r.Ok? && o.ctx.None?
  {
    ghost var ctx0 := pool.UniqueValue(ASYNC_CTX);
    ghost var c0, v0, d0 := pool.cleanups, pool.values, pool.dropped;
    ghost var next := rt.nextTask;
    var ctx := AcquireCtx(pool, rt, current, cln);
    if ctx.None? {
      return Err(ContextCreationFailed);
    }
    ghost var c1, v1 := pool.cleanups, pool.values;
    r := FinishCall(pool, ctx.value, done);
    if ctx0.None? {
      FrameCompose(c0, v0, d0, c1, v1, pool.cleanups, pool.values, pool.dropped, ItemOf(ASYNC_CTX), cln.value, AsyncCtx(Some(next)));
    }
  }

  // ---------------------------------------------------------------------
  // HandlerFuture
  // ---------------------------------------------------------------------

  /**
   * `HandlerFuture::poll` given the inner future's poll result: the result
   * is passed through, and the write event is posted (the boolean) only
   * when the worker is ready.
   */
  function HandlerFuturePoll(inner: Poll<int>): (r: (Poll<int>, bool))
    ensures r.0 == inner
    ensures r.1 <==> inner.Ready?
  {
    match inner
    case Pending => (Pending, false)
    case Ready(rc) => (Ready(rc), true)
  }

  /** How many write events a sequence of polls of the wrapper posts. */
  function WriteEventsPosted(polls: seq<Poll<int>>): (n: nat)
    ensures n <= |polls|
  {
    if polls == [] then 0
    else WriteEventsPosted(polls[..|polls| - 1]) + (if HandlerFuturePoll(polls[|polls| - 1]).1 then 1 else 0)
  }

  /** Polls that all return `Pending` post nothing. */
  lemma {:induction false} PendingPostsNothing(polls: seq<Poll<int>>)
    requires forall i :: 0 <= i < |polls| ==> polls[i].Pending?
    ensures WriteEventsPosted(polls) == 0
  {
    if polls != [] {
      var init := polls[..|polls| - 1];
      assert forall i :: 0 <= i < |init| ==> init[i] == polls[i];
      PendingPostsNothing(init);
    }
  }

  /** Over the life of a task (pending polls, then the ready one), exactly one write event is posted. */
  lemma OnePostPerCompletion(polls: seq<Poll<int>>)
    requires |polls| > 0 && polls[|polls| - 1].Ready?
    requires forall i :: 0 <= i < |polls| - 1 ==> polls[i].Pending?
    ensures WriteEventsPosted(polls) == 1
  {
    var init := polls[..|polls| - 1];
    assert forall i :: 0 <= i < |init| ==> init[i] == polls[i];
    PendingPostsNothing(init);
  }
}
