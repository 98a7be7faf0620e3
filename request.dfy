/**
 * The parts of the HTTP request wrapper with logic of their own: the
 * per-module context slots, the internal redirect branch, the request
 * method mapping, and the iterator over an `ngx_list_t` of headers.
 */
module HttpRequest {
  import opened Results
  import opened NgxConsts
  import opened CoreStatus

  /** A non-null pointer value; `None` stands for null. */
  type Addr = nat

  /** The part of an `ngx_module_t` the request uses: its index into `r->ctx`. */
  datatype NgxModule = NgxModule(ctxIndex: nat)

  /** An `ngx_http_request_t` as far as module contexts go: the `ctx` array, one slot per HTTP module. */
  class Request {
    const ctx: array<Option<Addr>>

    constructor (modules: nat)
      ensures fresh(ctx) && ctx.Length == modules
      ensures forall i :: 0 <= i < modules ==> ctx[i].None?
    {
      ctx := new Option<Addr>[modules](_ => None);
    }

    /** `get_module_ctx_ptr` / `get_module_ctx`: the module's slot, `None` when null. */
    function GetModuleCtx(m: NgxModule): Option<Addr>
      reads ctx
      requires m.ctxIndex < ctx.Length
    {
      ctx[m.ctxIndex]
    }

    /** `set_module_ctx(value, module)`: writes this module's slot and no other. */
    method SetModuleCtx(value: Option<Addr>, m: NgxModule)
      requires m.ctxIndex < ctx.Length
      modifies ctx
      ensures GetModuleCtx(m) == value
      ensures forall i :: 0 <= i < ctx.Length && i != m.ctxIndex ==> ctx[i] == old(ctx[i])
    {
      ctx[m.ctxIndex] := value;
    }
  }

  /** The nginx call `internal_redirect` makes. */
  datatype RedirectCall = NamedLocation(name: string) | InternalRedirect(uri: string)

  /** `Request::internal_redirect(location)`: the call it makes and the status it returns. */
  function InternalRedirectCall(location: string): (r: (RedirectCall, Status))
    requires location != []
    ensures r.1 == STATUS_DONE
    ensures r.0.NamedLocation? <==> location[0] == '@'
    ensures r.0 == NamedLocation(location) || r.0 == InternalRedirect(location)
  {
    if location[0] == '@' then (NamedLocation(location), STATUS_DONE)
    else (InternalRedirect(location), STATUS_DONE)
  }

  /** The request method verb (`Method(MethodInner)`). */
  datatype Method = Unknown | Get | Head | Post | Put | Delete | Mkcol | Copy | Move | Options
                  | Propfind | Proppatch | Lock | Unlock | Patch | Trace | Connect

  predicate IsUpperAscii(s: string)
  {
    forall k :: 0 <= k < |s| ==> 'A' <= s[k] <= 'Z'
  }

  /** `Method::as_str`. */
  function AsStr(m: Method): (r: string)
    ensures r != [] && IsUpperAscii(r)
  {
    match m
    case Unknown => "UNKNOWN"
    case Get => "GET"
    case Head => "HEAD"
    case Post => "POST"
    case Put => "PUT"
    case Delete => "DELETE"
    case Mkcol => "MKCOL"
    case Copy => "COPY"
    case Move => "MOVE"
    case Options => "OPTIONS"
    case Propfind => "PROPFIND"
    case Proppatch => "PROPPATCH"
    case Lock => "LOCK"
    case Unlock => "UNLOCK"
    case Patch => "PATCH"
    case Trace => "TRACE"
    case Connect => "CONNECT"
  }

  /** Every variant has a name of its own. */
  lemma AsStrInjective(a: Method, b: Method)
    ensures AsStr(a) == AsStr(b) <==> a == b
  {
  }

  /** The nginx `NGX_HTTP_*` code of each verb; `Unknown` is `NGX_HTTP_UNKNOWN`. */
  function NgxCode(m: Method): nat
  {
    match m
    case Unknown => NGX_HTTP_UNKNOWN
    case Get => NGX_HTTP_GET
    case Head => NGX_HTTP_HEAD
    case Post => NGX_HTTP_POST
    case Put => NGX_HTTP_PUT
    case Delete => NGX_HTTP_DELETE
    case Mkcol => NGX_HTTP_MKCOL
    case Copy => NGX_HTTP_COPY
    case Move => NGX_HTTP_MOVE
    case Options => NGX_HTTP_OPTIONS
    case Propfind => NGX_HTTP_PROPFIND
    case Proppatch => NGX_HTTP_PROPPATCH
    case Lock => NGX_HTTP_LOCK
    case Unlock => NGX_HTTP_UNLOCK
    case Patch => NGX_HTTP_PATCH
    case Trace => NGX_HTTP_TRACE
    case Connect => NGX_HTTP_CONNECT
  }

  /** The verbs `from_ngx` recognises; `CONNECT` only when built for nginx 1.21.1 or later. */
  predicate Recognised(m: Method, hasConnect: bool)
  {
    m != Unknown && (m == Connect ==> hasConnect)
  }

  /** `t as u32`: the `NGX_HTTP_*` constants are `u32`, so `from_ngx` compares the low 32 bits of its argument. */
  function AsU32(t: nat): (u: nat)
    ensures u < 0x1_0000_0000
    ensures t < 0x1_0000_0000 ==> u == t
  {
    t % 0x1_0000_0000
  }

  /**
   * `Method::from_ngx(code)`: the verb whose code the low 32 bits of the
   * argument are, `Unknown` for any other code. `hasConnect` is the
   * `nginx1_21_1` build configuration.
   */
  function FromNgx(code: nat, hasConnect: bool): (r: Method)
    ensures r != Unknown ==> Recognised(r, hasConnect) && NgxCode(r) == AsU32(code)
    ensures r == Unknown <==> forall m: Method :: Recognised(m, hasConnect) ==> NgxCode(m) != AsU32(code)
  {
    var t := AsU32(code);
    if t == NGX_HTTP_GET then Get
    else if t == NGX_HTTP_HEAD then Head
    else if t == NGX_HTTP_POST then Post
    else if t == NGX_HTTP_PUT then Put
    else if t == NGX_HTTP_DELETE then Delete
    else if t == NGX_HTTP_MKCOL then Mkcol
    else if t == NGX_HTTP_COPY then Copy
    else if t == NGX_HTTP_MOVE then Move
    else if t == NGX_HTTP_OPTIONS then Options
    else if t == NGX_HTTP_PROPFIND then Propfind
    else if t == NGX_HTTP_PROPPATCH then Proppatch
    else if t == NGX_HTTP_LOCK then Lock
    else if t == NGX_HTTP_UNLOCK then Unlock
    else if t == NGX_HTTP_PATCH then Patch
    else if t == NGX_HTTP_TRACE then Trace
    else if hasConnect && t == NGX_HTTP_CONNECT then Connect
    else Unknown
  }

  /** Codes that agree in their low 32 bits give the same method. */
  lemma FromNgxLow32(code: nat, hasConnect: bool)
    ensures FromNgx(code + 0x1_0000_0000, hasConnect) == FromNgx(code, hasConnect)
  {
    assert AsU32(code + 0x1_0000_0000) == AsU32(code);
  }

  /** `from_ngx` inverts `NgxCode` on every recognised verb. */
  lemma FromNgxOfCode(m: Method, hasConnect: bool)
    requires Recognised(m, hasConnect)
    ensures FromNgx(NgxCode(m), hasConnect) == m
  {
  }

  /** `PartialEq<str>` (and its `&str` and reversed forms): equality of `as_str`. */
  predicate EqStr(m: Method, s: string)
  {
    AsStr(m) == s
  }

  /** A method equals another method's name exactly when they are the same method. */
  lemma EqStrOfName(m: Method, n: Method)
    ensures EqStr(m, AsStr(n)) <==> m == n
  {
    AsStrInjective(m, n);
  }

  /** An `ngx_table_elt_t` header: key and value. */
  datatype Header = Header(key: string, value: string)

  /** An `ngx_list_part_t`: the part's element array and how many of its slots are used. */
  datatype RawPart = RawPart(nelts: nat, elts: seq<Header>)

  /** An `ngx_list_t` chain: at least the embedded first part, and every part's `nelts` within its array. */
  predicate WellFormed(parts: seq<RawPart>)
  {
    |parts| > 0 && PartsSized(parts)
  }

  /** Some part after part `from` is empty; the iterator indexes into such a part and panics. */
  predicate EmptyAfter(parts: seq<RawPart>, from: nat)
  {
    exists k :: from < k < |parts| && parts[k].nelts == 0
  }

  /** `ListPart::from`: the used elements of a part; none when `nelts == 0`. */
  function PartArr(p: RawPart): (arr: seq<Header>)
    requires p.nelts <= |p.elts|
    ensures |arr| == p.nelts
    ensures forall k :: 0 <= k < |arr| ==> arr[k] == p.elts[k]
  {
    if p.nelts != 0 then p.elts[..p.nelts] else []
  }

  /** Every part's `nelts` is within its element array. */
  predicate PartsSized(parts: seq<RawPart>)
  {
    forall k :: 0 <= k < |parts| ==> parts[k].nelts <= |parts[k].elts|
  }

  /** The elements of the chain from part `from` on, part after part. */
  function Elements(parts: seq<RawPart>, from: nat): seq<Header>
    requires PartsSized(parts) && from <= |parts|
    decreases |parts| - from
  {
    if from == |parts| then [] else PartArr(parts[from]) + Elements(parts, from + 1)
  }

  /** The elements of the whole chain. */
  function Flatten(parts: seq<RawPart>): seq<Header>
    requires PartsSized(parts)
  {
    Elements(parts, 0)
  }

  /** What an iterator at index `i` of part `part` (holding `arr`) has still to yield. */
  function Unyielded(parts: seq<RawPart>, part: Option<nat>, arr: seq<Header>, i: nat): seq<Header>
    requires PartsSized(parts)
    requires part.Some? ==> part.value < |parts| && i <= |arr|
  {
    if part.None? then [] else arr[i..] + Elements(parts, part.value + 1)
  }

  /**
   * What `Iterator::next` does: yields a header, yields `None`, or panics on
   * `part.arr[self.i]` because the part it has just moved to is empty.
   */
  datatype Step = Yield(header: Header) | Done | IndexPanic

  /** `NgxListIterator`: the chain, the current part (`None` once exhausted), and the index in it. */
  class NgxListIterator {
    const parts: seq<RawPart>
    var part: Option<nat>
    var arr: seq<Header>
    var i: nat

    ghost predicate Valid()
      reads this
    {
      WellFormed(parts)
      && (part.Some? ==> part.value < |parts| && arr == PartArr(parts[part.value]) && i <= |arr|)
    }

    /** The elements still to be yielded. */
    ghost function Remaining(): seq<Header>
      reads this
      requires Valid()
    {
      Unyielded(parts, part, arr, i)
    }

    /** The next call indexes past the end of an empty successor part. */
    ghost predicate PanicsNext()
      reads this
      requires Valid()
    {
      part.Some? && i >= |arr| && part.value + 1 < |parts| && parts[part.value + 1].nelts == 0
    }

    /** `list_iterator(list)`: starts at index 0 of the first part. */
    constructor (parts: seq<RawPart>)
      requires WellFormed(parts)
      ensures Valid() && this.parts == parts
      ensures part == Some(0) && i == 0
      ensures Remaining() == Flatten(parts)
    {
      this.parts := parts;
      part := Some(0);
      arr := PartArr(parts[0]);
      i := 0;
    }

    /**
     * `Iterator::next`: yields the next element, moving to the next part when
     * one is used up; panics when the part moved to is empty.
     */
    method Next() returns (r: Step)
      requires Valid()
      modifies this`part, this`arr, this`i
      ensures Valid()
      ensures r.IndexPanic? <==> old(PanicsNext())
      ensures !r.IndexPanic? && old(Remaining()) == [] ==> r.Done? && part.None?
      ensures r.Yield? ==> part.Some?
      ensures !r.IndexPanic? && old(Remaining()) != [] ==>
        r == Yield(old(Remaining())[0]) && Remaining() == old(Remaining())[1..]
      ensures !r.IndexPanic? ==>
        (part == old(part)
         || (part.None? && old(part).Some? && old(part).value + 1 == |parts|)
         || (part.Some? && old(part).Some? && part.value == old(part).value + 1 && parts[part.value].nelts > 0))
    {
      if part.None? {
        return Done;
      }
      ghost var rem := Remaining();
      if i >= |arr| {
        if part.value + 1 < |parts| {
          var p := part.value + 1;
          UnyieldedNextPart(parts, part.value, arr);
          part := Some(p);
          arr := PartArr(parts[p]);
          i := 0;
          assert Remaining() == rem;
        } else {
          UnyieldedLastPart(parts, part.value, arr);
          part := None;
          return Done;
        }
      }
      if i >= |arr| {
        return IndexPanic;
      }
      UnyieldedTake(parts, part.value, arr, i);
      r := Yield(arr[i]);
      i := i + 1;
      assert Remaining() == rem[1..];
    }
  }

  /** Inside a part, the next element is the one at the index, and the rest follows it. */
  lemma UnyieldedTake(parts: seq<RawPart>, q: nat, arr: seq<Header>, i: nat)
    requires PartsSized(parts) && q < |parts| && i < |arr|
    ensures Unyielded(parts, Some(q), arr, i) != []
    ensures Unyielded(parts, Some(q), arr, i)[0] == arr[i]
    ensures Unyielded(parts, Some(q), arr, i)[1..] == Unyielded(parts, Some(q), arr, i + 1)
  {
    SkipOne(arr, i, Elements(parts, q + 1));
  }

  /** At the end of a part that has a successor, what is left starts at index 0 of the successor. */
  lemma UnyieldedNextPart(parts: seq<RawPart>, q: nat, arr: seq<Header>)
    requires PartsSized(parts) && q + 1 < |parts|
    ensures Unyielded(parts, Some(q), arr, |arr|) == Unyielded(parts, Some(q + 1), PartArr(parts[q + 1]), 0)
  {
    var next := PartArr(parts[q + 1]);
    var later := Elements(parts, q + 2);
    assert Elements(parts, q + 1) == next + later;
    calc {
      Unyielded(parts, Some(q), arr, |arr|);
      arr[|arr|..] + (next + later);
      { assert arr[|arr|..] == []; }
      next + later;
      { assert next[0..] == next; }
      next[0..] + later;
      Unyielded(parts, Some(q + 1), next, 0);
    }
  }

  /** At the end of the last part nothing is left. */
  lemma UnyieldedLastPart(parts: seq<RawPart>, q: nat, arr: seq<Header>)
    requires PartsSized(parts) && q + 1 == |parts|
    ensures Unyielded(parts, Some(q), arr, |arr|) == []
  {
    assert arr[|arr|..] == [];
  }

  /** Taking one element off the front of `a[i..] + rest`. */
  lemma SkipOne<T>(a: seq<T>, i: nat, rest: seq<T>)
    requires i < |a|
    ensures (a[i..] + rest)[0] == a[i]
    ensures (a[i..] + rest)[1..] == a[i + 1..] + rest
  {
    assert a[i..] == [a[i]] + a[i + 1..];
  }

  /** Moving the head of what is left to the end of what was collected. */
  lemma AppendHead<T>(hs: seq<T>, rem: seq<T>)
    requires rem != []
    ensures (hs + [rem[0]]) + rem[1..] == hs + rem
  {
    assert rem == [rem[0]] + rem[1..];
  }

  /**
   * Iterating a fresh iterator to exhaustion: it panics exactly when some
   * part after the first is empty, having yielded a prefix of the chain's
   * elements; otherwise it yields every header, in order, and then `None`.
   */
  method CollectHeaders(parts: seq<RawPart>) returns (hs: seq<Header>, panicked: bool, after: Step)
    requires WellFormed(parts)
    ensures panicked <==> EmptyAfter(parts, 0)
    ensures panicked ==> after.IndexPanic? && hs <= Flatten(parts)
    ensures !panicked ==> hs == Flatten(parts) && after.Done?
  {
    var it := new NgxListIterator(parts);
    hs := [];
    panicked := false;
    while true
      invariant it.Valid() && it.parts == parts
      invariant hs + it.Remaining() == Flatten(parts)
      invariant EmptyAfter(parts, 0) <==> it.part.Some? && EmptyAfter(parts, it.part.value)
      decreases |it.Remaining()|
    {
      ghost var rem := it.Remaining();
      ghost var q := it.part;
      var h := it.Next();
      if h.IndexPanic? {
        assert parts[q.value + 1].nelts == 0;
        panicked := true;
        after := h;
        return;
      }
      if h.Done? {
        break;
      }
      if it.part != q {
        EmptyAfterStep(parts, q.value);
      }
      AppendHead(hs, rem);
      hs := hs + [h.header];
    }
    after := it.Next();
  }

  /** Moving past a nonempty part does not change whether an empty part lies ahead. */
  lemma EmptyAfterStep(parts: seq<RawPart>, q: nat)
    requires q + 1 < |parts| && parts[q + 1].nelts > 0
    ensures EmptyAfter(parts, q) <==> EmptyAfter(parts, q + 1)
  {
    if EmptyAfter(parts, q) {
      var k :| q < k < |parts| && parts[k].nelts == 0;
      assert k != q + 1;
    }
  }
}
