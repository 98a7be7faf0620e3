/**
 * Numeric constants of the nginx C headers that the bindings re-export.
 * The values are the ones nginx defines (ngx_core.h, ngx_log.h,
 * ngx_http_request.h). Among their properties, the proofs rely on the
 * status codes being pairwise distinct, the control codes being negative,
 * `NGX_HTTP_SPECIAL_RESPONSE` lying in (0, 2^31), the numeric order of the
 * `NGX_LOG_*` levels, and the bit layout of the flag and mask constants.
 */
module NgxConsts {
  // ngx_int_t status codes (ngx_core.h)
  const NGX_OK: int := 0
  const NGX_ERROR: int := -1
  const NGX_AGAIN: int := -2
  const NGX_BUSY: int := -3
  const NGX_DONE: int := -4
  const NGX_DECLINED: int := -5
  const NGX_ABORT: int := -6

  /** Status codes at or above this value are HTTP responses, not control codes. */
  const NGX_HTTP_SPECIAL_RESPONSE: int := 300

  // ngx_uint_t log levels and debug mask bits (ngx_log.h)
  const NGX_LOG_STDERR: nat := 0
  const NGX_LOG_EMERG: nat := 1
  const NGX_LOG_ALERT: nat := 2
  const NGX_LOG_CRIT: nat := 3
  const NGX_LOG_ERR: nat := 4
  const NGX_LOG_WARN: nat := 5
  const NGX_LOG_NOTICE: nat := 6
  const NGX_LOG_INFO: nat := 7
  const NGX_LOG_DEBUG: nat := 8
  const NGX_LOG_DEBUG_CORE: nat := 0x010
  const NGX_LOG_DEBUG_HTTP: nat := 0x100

  // r->method bits (ngx_http_request.h)
  const NGX_HTTP_UNKNOWN: nat := 0x00000001
  const NGX_HTTP_GET: nat := 0x00000002
  const NGX_HTTP_HEAD: nat := 0x00000004
  const NGX_HTTP_POST: nat := 0x00000008
  const NGX_HTTP_PUT: nat := 0x00000010
  const NGX_HTTP_DELETE: nat := 0x00000020
  const NGX_HTTP_MKCOL: nat := 0x00000040
  const NGX_HTTP_COPY: nat := 0x00000080
  const NGX_HTTP_MOVE: nat := 0x00000100
  const NGX_HTTP_OPTIONS: nat := 0x00000200
  const NGX_HTTP_PROPFIND: nat := 0x00000400
  const NGX_HTTP_PROPPATCH: nat := 0x00000800
  const NGX_HTTP_LOCK: nat := 0x00001000
  const NGX_HTTP_UNLOCK: nat := 0x00002000
  const NGX_HTTP_PATCH: nat := 0x00004000
  const NGX_HTTP_TRACE: nat := 0x00008000
  const NGX_HTTP_CONNECT: nat := 0x00010000

  // ngx_http_subrequest flags (ngx_http_request.h)
  const NGX_HTTP_SUBREQUEST_IN_MEMORY: bv64 := 2
  const NGX_HTTP_SUBREQUEST_WAITED: bv64 := 4
  const NGX_HTTP_SUBREQUEST_CLONE: bv64 := 8
  const NGX_HTTP_SUBREQUEST_BACKGROUND: bv64 := 16

  /** NGX_ALIGNMENT: sizeof(unsigned long) on the 64-bit targets the bindings build for. */
  const NGX_ALIGNMENT: nat := 8
}
