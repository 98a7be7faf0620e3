/**
 * `RequestContext`: a module's per-request context, allocated from the
 * request pool (so it is dropped with the pool) and kept in the module's
 * slot of the request's `ctx` array. `get` and `get_mut` read the slot with
 * `Request.GetModuleCtx`.
 */
module HttpRequestContext {
  import opened Results
  import opened CorePool
  import opened HttpRequest

  /** `exists`: the slot holds a context. */
  predicate Exists(r: Request, m: NgxModule)
    reads r.ctx
    requires m.ctxIndex < r.ctx.Length
  {
    r.GetModuleCtx(m).Some?
  }

  /**
   * `create(request, value)`: `Pool::allocate(value)` (`cln` is the data
   * pointer the cleanup entry gets, `None` when allocation fails), then the
   * slot is set to it, overwriting any earlier context.
   */
  method Create<V>(r: Request, pool: Pool<V>, m: NgxModule, tag: TypeTag, value: V, cln: Option<CorePool.Addr>)
    returns (p: Option<CorePool.Addr>)
    requires pool.Valid() && !tag.ItemOf?
    requires m.ctxIndex < r.ctx.Length
    requires cln.Some? ==> cln.value !in pool.values
    modifies pool`cleanups, pool`values, r.ctx
    ensures pool.Valid()
    ensures p == cln
    ensures cln.Some? ==> r.GetModuleCtx(m) == cln && Exists(r, m)
    ensures cln.Some? ==> pool.cleanups == [Cleanup(Some(tag), cln)] + old(pool.cleanups)
    ensures cln.Some? ==> pool.values == old(pool.values)[cln.value := value]
    ensures cln.None? ==> r.ctx[..] == old(r.ctx[..])
    ensures cln.None? ==> pool.cleanups == old(pool.cleanups) && pool.values == old(pool.values)
    ensures forall i :: 0 <= i < r.ctx.Length && i != m.ctxIndex ==> r.ctx[i] == old(r.ctx[i])
  {
    p := pool.Allocate(tag, value, cln);
    if p.Some? {
      r.SetModuleCtx(p, m);
    }
  }

  /**
   * `remove(request)`: when the slot holds a context, nulls the slot and
   * removes the context's pool entry, which drops it; otherwise does nothing.
   */
  method Remove<V>(r: Request, pool: Pool<V>, m: NgxModule, tag: TypeTag)
    requires pool.Valid()
    requires m.ctxIndex < r.ctx.Length
    modifies pool`cleanups, pool`dropped, r.ctx
    ensures pool.Valid()
    ensures !Exists(r, m)
    ensures forall i :: 0 <= i < r.ctx.Length && i != m.ctxIndex ==> r.ctx[i] == old(r.ctx[i])
    ensures old(r.GetModuleCtx(m)).None? ==> pool.cleanups == old(pool.cleanups) && pool.dropped == old(pool.dropped)
    ensures old(r.GetModuleCtx(m)).Some? ==>
      var a := old(r.GetModuleCtx(m)).value;
      var found := old(Find(pool.cleanups, tag, Some(a)));
      (found.None? ==> pool.cleanups == old(pool.cleanups) && pool.dropped == old(pool.dropped))
      && (found.Some? ==> pool.cleanups == old(pool.cleanups)[found.value := Cleanup(None, None)]
                          && pool.dropped == old(pool.dropped) + [(tag, a)])
  {
    var ctx := r.GetModuleCtx(m);
    if ctx.Some? {
      r.SetModuleCtx(None, m);
      var _ := pool.Remove(tag, ctx.value);
    }
  }
}
