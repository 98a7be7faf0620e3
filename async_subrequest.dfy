/**
 * Async subrequests: the builder and the error paths of `build`, and the
 * subrequest future that turns nginx's post-subrequest callback into a
 * poll result.
 */
module HttpAsyncSubRequest {
  import opened Results
  import opened NgxConsts
  import opened CorePool

  /** The flag bits the builder can or into `flags`. */
  datatype SubrequestFlag = InMemoryFlag | WaitedFlag | BackgroundFlag

  /** The `NGX_HTTP_SUBREQUEST_*` bit of each flag. */
  function FlagBit(f: SubrequestFlag): bv64
  {
    match f
    case InMemoryFlag => NGX_HTTP_SUBREQUEST_IN_MEMORY
    case WaitedFlag => NGX_HTTP_SUBREQUEST_WAITED
    case BackgroundFlag => NGX_HTTP_SUBREQUEST_BACKGROUND
  }

  /** The `ngx_uint_t` flags word: the or of the bits that were set. */
  function FlagsMask(fs: set<SubrequestFlag>): bv64
  {
    (if InMemoryFlag in fs then NGX_HTTP_SUBREQUEST_IN_MEMORY else 0)
    | (if WaitedFlag in fs then NGX_HTTP_SUBREQUEST_WAITED else 0)
    | (if BackgroundFlag in fs then NGX_HTTP_SUBREQUEST_BACKGROUND else 0)
  }

  /** A flag's bit is set in the flags word exactly when the flag was set. */
  lemma FlagsMaskHasBit(fs: set<SubrequestFlag>, f: SubrequestFlag)
    ensures FlagsMask(fs) & FlagBit(f) != 0 <==> f in fs
  {
  }

  /**
   * `AsyncSubRequestBuilder`; `flags` is the set of bits or-ed into its
   * flags word (`FlagsMask` gives the word).
   */
  datatype Builder = Builder(uri: string, args: Option<string>, flags: set<SubrequestFlag>)

  /** `AsyncSubRequestBuilder::new`: no arguments and a zero flags word. */
  function NewBuilder(uri: string): (b: Builder)
    ensures b.uri == uri && b.args.None? && FlagsMask(b.flags) == 0
  {
    Builder(uri, None, {})
  }

  /** `args`: sets the query arguments and nothing else. */
  function WithArgs(b: Builder, args: string): (r: Builder)
    ensures r.args == Some(args) && r.uri == b.uri && r.flags == b.flags
  {
    b.(args := Some(args))
  }

  /** `in_memory`: sets the `NGX_HTTP_SUBREQUEST_IN_MEMORY` bit and no other. */
  function InMemory(b: Builder): (r: Builder)
    ensures r.uri == b.uri && r.args == b.args
    ensures InMemoryFlag in r.flags && r.flags - {InMemoryFlag} == b.flags - {InMemoryFlag}
  {
    b.(flags := b.flags + {InMemoryFlag})
  }

  /** `waited`: sets the `NGX_HTTP_SUBREQUEST_WAITED` bit and no other. */
  function Waited(b: Builder): (r: Builder)
    ensures r.uri == b.uri && r.args == b.args
    ensures WaitedFlag in r.flags && r.flags - {WaitedFlag} == b.flags - {WaitedFlag}
  {
    b.(flags := b.flags + {WaitedFlag})
  }

  /** `background`: sets the `NGX_HTTP_SUBREQUEST_BACKGROUND` bit and no other. */
  function Background(b: Builder): (r: Builder)
    ensures r.uri == b.uri && r.args == b.args
    ensures BackgroundFlag in r.flags && r.flags - {BackgroundFlag} == b.flags - {BackgroundFlag}
  {
    b.(flags := b.flags + {BackgroundFlag})
  }

  /** Each flag setter is idempotent. */
  lemma FlagSettersIdempotent(b: Builder)
    ensures InMemory(InMemory(b)) == InMemory(b)
    ensures Waited(Waited(b)) == Waited(b)
    ensures Background(Background(b)) == Background(b)
  {
  }

  /** The flag setters commute, so the order they are chained in does not matter. */
  lemma FlagSettersCommute(b: Builder)
    ensures InMemory(Waited(b)) == Waited(InMemory(b))
    ensures InMemory(Background(b)) == Background(InMemory(b))
    ensures Waited(Background(b)) == Background(Waited(b))
  {
  }

  /** All three setters on a new builder give the flags word with exactly their three bits. */
  lemma BuilderFlagsExact(uri: string)
    ensures FlagsMask(Background(Waited(InMemory(NewBuilder(uri)))).flags)
         == NGX_HTTP_SUBREQUEST_IN_MEMORY | NGX_HTTP_SUBREQUEST_WAITED | NGX_HTTP_SUBREQUEST_BACKGROUND
  {
  }

  // ---------------------------------------------------------------------
  // build, AsyncSubRequest
  // ---------------------------------------------------------------------

  datatype AsyncSubRequestError =
    | RequestAllocFailed | PostRequestAllocFailed | UriAllocFailed | ArgsAllocFailed | CreationFailed

  /**
   * The outcomes of the foreign calls `build` makes, in the order it makes
   * them: the future's box, the uri copy, the args copy, the
   * post-subrequest box, and `ngx_http_subrequest` with the subrequest it
   * creates.
   */
  datatype BuildEnv = BuildEnv(boxOk: bool, uriOk: bool, argsOk: bool, psrOk: bool, subrequestRc: int, srPtr: Addr)

  /** The arguments `ngx_http_subrequest` is called with. */
  datatype SubrequestCall = SubrequestCall(uri: string, args: Option<string>, flags: bv64)

  type WakerId = nat

  /** The fields of an `AsyncSubRequest`. */
  datatype SubReq = SubReq(sr: Option<Addr>, waker: Option<WakerId>, rc: Option<int>)

  /** A started subrequest: the call made and the future that waits for it. */
  datatype Issued = Issued(call: SubrequestCall, future: SubReq)

  /** `AsyncSubRequestBuilder::build`: the first failing step decides the error. */
  function Build(b: Builder, env: BuildEnv): (r: Result<Issued, AsyncSubRequestError>)
    ensures r == Err(RequestAllocFailed) <==> !env.boxOk
    ensures r == Err(UriAllocFailed) <==> env.boxOk && !env.uriOk
    ensures r == Err(ArgsAllocFailed) <==> env.boxOk && env.uriOk && b.args.Some? && !env.argsOk
    ensures r == Err(PostRequestAllocFailed) <==>
      env.boxOk && env.uriOk && (b.args.None? || env.argsOk) && !env.psrOk
    ensures r == Err(CreationFailed) <==>
      env.boxOk && env.uriOk && (b.args.None? || env.argsOk) && env.psrOk && env.subrequestRc != NGX_OK
    ensures r.Ok? ==> r.value == Issued(SubrequestCall(b.uri, b.args, FlagsMask(b.flags)), SubReq(Some(env.srPtr), None, None))
  {
    if !env.boxOk then Err(RequestAllocFailed)
    else if !env.uriOk then Err(UriAllocFailed)
    else if b.args.Some? && !env.argsOk then Err(ArgsAllocFailed)
    else if !env.psrOk then Err(PostRequestAllocFailed)
    else if env.subrequestRc != NGX_OK then Err(CreationFailed)
    else Ok(Issued(SubrequestCall(b.uri, b.args, FlagsMask(b.flags)), SubReq(Some(env.srPtr), None, None)))
  }

  /** Without arguments, whether copying them would fail does not matter. */
  lemma BuildIgnoresArgsAllocWithoutArgs(b: Builder, env: BuildEnv)
    requires b.args.None?
    ensures Build(b, env) == Build(b, env.(argsOk := !env.argsOk))
  {
  }

  /** `sr_handler`: records rc and takes the stored waker (the one woken, if any). */
  function SrHandlerSpec(s: SubReq, rc: int): (r: (SubReq, Option<WakerId>))
    ensures r.0.rc == Some(rc) && r.0.waker.None? && r.0.sr == s.sr
    ensures r.1 == s.waker
  {
    (SubReq(s.sr, None, Some(rc)), s.waker)
  }

  /** `AsyncSubRequest::poll` with the waker of the polling context. */
  function PollSpec(s: SubReq, w: WakerId): (r: (SubReq, Poll<(int, Option<Addr>)>))
    ensures r.0.waker == Some(w) && r.0.rc == s.rc
    ensures s.sr.None? ==> r.1 == Ready((NGX_ERROR, None)) && r.0.sr.None?
    ensures s.sr.Some? && s.rc.None? ==> r.1 == Pending && r.0.sr == s.sr
    ensures s.sr.Some? && s.rc.Some? ==> r.1 == Ready((s.rc.value, s.sr)) && r.0.sr.None?
  {
    var s1 := s.(waker := Some(w));
    if s.sr.None? then (s1, Ready((NGX_ERROR, None)))
    else if s.rc.None? then (s1, Pending)
    else (s1.(sr := None), Ready((s.rc.value, s.sr)))
  }

  /** A freshly built subrequest future is pending until nginx calls back. */
  lemma BuiltFuturePending(b: Builder, env: BuildEnv, w: WakerId)
    requires Build(b, env).Ok?
    ensures PollSpec(Build(b, env).value.future, w).1 == Pending
  {
  }

  /**
   * The callback-to-poll bridge: a poll that returns `Pending` stores its
   * waker, the completion callback wakes exactly that waker and returns rc,
   * and the next poll resolves with rc and the subrequest.
   */
  lemma PendingThenCompleted(s: SubReq, w: WakerId, w2: WakerId, rc: int)
    requires s.sr.Some? && s.rc.None?
    ensures PollSpec(s, w).1 == Pending
    ensures SrHandlerSpec(PollSpec(s, w).0, rc).1 == Some(w)
    ensures PollSpec(SrHandlerSpec(PollSpec(s, w).0, rc).0, w2).1 == Ready((rc, s.sr))
  {
  }

  /** After resolving, the subrequest is gone, so any further poll reports `NGX_ERROR`. */
  lemma PollAfterReadyIsError(s: SubReq, w: WakerId, w2: WakerId)
    requires PollSpec(s, w).1.Ready?
    ensures PollSpec(PollSpec(s, w).0, w2).1 == Ready((NGX_ERROR, None))
  {
  }

  /** `AsyncSubRequest`, with `woken` the wakers its callback has woken, oldest first. */
  class AsyncSubRequest {
    var sr: Option<Addr>
    var waker: Option<WakerId>
    var rc: Option<int>
    var woken: seq<WakerId>

    /** The pinned box `build` returns, in the state `build` leaves it in. */
    constructor (s: SubReq)
      ensures State() == s && woken == []
    {
      sr := s.sr;
      waker := s.waker;
      rc := s.rc;
      woken := [];
    }

    function State(): SubReq
      reads this
    {
      SubReq(sr, waker, rc)
    }

    /** `sr_handler(r, data, rc)`, with `data` pointing at this future. */
    method SrHandler(rcIn: int) returns (out: int)
      modifies this
      ensures out == rcIn
      ensures State() == SrHandlerSpec(old(State()), rcIn).0
      ensures rc == Some(rcIn) && waker.None? && sr == old(sr)
      ensures woken == old(woken) + (if old(waker).Some? then [old(waker).value] else [])
    {
      rc := Some(rcIn);
      if waker.Some? {
        var w := waker.value;
        waker := None;
        woken := woken + [w];
      }
      out := rcIn;
    }

    /** `poll` from a task whose context holds waker `w`. */
    method Poll(w: WakerId) returns (p: Poll<(int, Option<Addr>)>)
      modifies this
      ensures (State(), p) == PollSpec(old(State()), w)
      ensures waker == Some(w) && rc == old(rc) && woken == old(woken)
    {
      waker := Some(w);
      if sr.None? {
        return Ready((NGX_ERROR, None));
      }
      if rc.None? {
        return Pending;
      }
      p := Ready((rc.value, sr));
      sr := None;
    }
  }
}
