/** The `Status` wrapper around nginx status codes and the `ngx_make_opt` conversion. */
module CoreStatus {
  import opened Results
  import opened NgxConsts

  /** `Status(pub ngx_int_t)`: a status code returned to nginx. */
  datatype Status = Status(code: int)

  // The associated constants `Status::NGX_OK` ... `Status::NGX_ABORT`.
  const STATUS_OK: Status := Status(NGX_OK)
  const STATUS_ERROR: Status := Status(NGX_ERROR)
  const STATUS_AGAIN: Status := Status(NGX_AGAIN)
  const STATUS_BUSY: Status := Status(NGX_BUSY)
  const STATUS_DONE: Status := Status(NGX_DONE)
  const STATUS_DECLINED: Status := Status(NGX_DECLINED)
  const STATUS_ABORT: Status := Status(NGX_ABORT)

  /** Result of a configuration directive handler: `NGX_CONF_OK` (null) or `NGX_CONF_ERROR` (-1 as a pointer). */
  datatype ConfResult = ConfOk | ConfError

  /** `Status::is_ok`: compares the whole wrapper with `Status::NGX_OK`. */
  predicate IsOk(s: Status): (b: bool)
    ensures b <==> s.code == NGX_OK
  {
    s == STATUS_OK
  }

  /** `From<Status> for ngx_int_t`. */
  function ToNgxInt(s: Status): int
  {
    s.code
  }

  /** Converting to `ngx_int_t` and wrapping again are inverse to each other. */
  lemma ToNgxIntRoundTrip(s: Status, c: int)
    ensures Status(ToNgxInt(s)) == s
    ensures ToNgxInt(Status(c)) == c
  {
  }

  /** `ngx_make_opt`: `NGX_ERROR` becomes `None`, every other code is kept. */
  function MakeOpt(code: int): (r: Option<int>)
    ensures r.None? <==> code == NGX_ERROR
    ensures r.Some? ==> r.value == code
  {
    if code != NGX_ERROR then Some(code) else None
  }

  /** `unwrap_or(NGX_ERROR)` undoes `ngx_make_opt`: no code is lost by the conversion. */
  lemma MakeOptUnwrapOr(code: int)
    ensures UnwrapOr(MakeOpt(code), NGX_ERROR) == code
  {
  }

  /** Two codes with the same `ngx_make_opt` image are equal. */
  lemma MakeOptInjective(a: int, b: int)
    ensures MakeOpt(a) == MakeOpt(b) <==> a == b
  {
    MakeOptUnwrapOr(a);
    MakeOptUnwrapOr(b);
  }

  // The `NGX_O_*` constants.
  const NGX_O_OK: Option<int> := Some(NGX_OK)
  const NGX_O_ERROR: Option<int> := None
  const NGX_O_AGAIN: Option<int> := Some(NGX_AGAIN)
  const NGX_O_BUSY: Option<int> := Some(NGX_BUSY)
  const NGX_O_DONE: Option<int> := Some(NGX_DONE)
  const NGX_O_DECLINED: Option<int> := Some(NGX_DECLINED)
  const NGX_O_ABORT: Option<int> := Some(NGX_ABORT)

  /** Each `NGX_O_*` constant is `ngx_make_opt` of its code. */
  lemma OptConstantsAgree()
    ensures NGX_O_OK == MakeOpt(NGX_OK) && NGX_O_ERROR == MakeOpt(NGX_ERROR)
    ensures NGX_O_AGAIN == MakeOpt(NGX_AGAIN) && NGX_O_BUSY == MakeOpt(NGX_BUSY)
    ensures NGX_O_DONE == MakeOpt(NGX_DONE) && NGX_O_DECLINED == MakeOpt(NGX_DECLINED)
    ensures NGX_O_ABORT == MakeOpt(NGX_ABORT)
  {
  }
}
