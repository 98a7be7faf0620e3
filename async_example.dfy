/**
 * The `async` example module: the `async on|off` location directive, the
 * merge of its flag down the configuration levels, and the decisions of
 * its access-phase handler and of the write event handler it installs.
 */
module AsyncExample {
  import opened Results
  import opened NgxConsts

  // ---------------------------------------------------------------------
  // The `async` directive
  // ---------------------------------------------------------------------

  /** `u8::to_ascii_lowercase`. */
  function AsciiLower(c: char): (d: char)
    ensures 'A' <= c <= 'Z' ==> d as int == c as int + 32
    ensures !('A' <= c <= 'Z') ==> d == c
  {
    if 'A' <= c <= 'Z' then (c as int + 32) as char else c
  }

  /** `str::eq_ignore_ascii_case`. */
  predicate EqIgnoreAsciiCase(a: string, b: string)
  {
    |a| == |b| && forall i :: 0 <= i < |a| ==> AsciiLower(a[i]) == AsciiLower(b[i])
  }

  /** The strings equal to `"on"` up to ASCII case are exactly `on`, `On`, `oN` and `ON`. */
  lemma OnSpellings(s: string)
    ensures EqIgnoreAsciiCase(s, "on") <==> s in {"on", "On", "oN", "ON"}
  {
    if |s| == 2 && EqIgnoreAsciiCase(s, "on") {
      assert AsciiLower(s[0]) == 'o' && AsciiLower(s[1]) == 'n';
      assert s[0] == 'o' || s[0] == 'O';
      assert s[1] == 'n' || s[1] == 'N';
      assert s == [s[0], s[1]];
    }
  }

  /** The directive's argument: a UTF-8 string, or bytes that are not UTF-8. */
  datatype ConfArg = Utf8(s: string) | NotUtf8

  /** What a directive handler returns. */
  datatype ConfResult = ConfOk | ConfError

  /** The merge never fails. */
  datatype MergeConfigError = MergeConfigError

  /** `ModuleConfig`, the location configuration of the module. */
  class ModuleConfig {
    var enable: bool

    /** `ModuleConfig::default()`: disabled. */
    constructor ()
      ensures !enable
    {
      enable := false;
    }

    /**
     * `ngx_http_async_commands_set_enable`: a non-UTF-8 argument is a
     * configuration error and leaves the flag alone; any other value
     * enables exactly when it is `on` in any ASCII case (`off` and
     * everything else disable).
     */
    method SetEnable(arg: ConfArg) returns (r: ConfResult)
      modifies this
      ensures arg.NotUtf8? ==> r == ConfError && enable == old(enable)
      ensures arg.Utf8? ==> r == ConfOk && enable == EnableOf(arg.s)
    {
      if arg.NotUtf8? {
        return ConfError;
      }
      var val := arg.s;
      enable := false;
      if EqIgnoreAsciiCase(val, "on") {
        enable := true;
      } else if EqIgnoreAsciiCase(val, "off") {
        enable := false;
      }
      r := ConfOk;
    }

    /** `Merge::merge`: the flag is set when either level sets it; it never fails. */
    method Merge(prev: ModuleConfig) returns (r: Result<(), MergeConfigError>)
      modifies this
      ensures enable == MergeSpec(old(enable), old(prev.enable))
      ensures r.Ok?
    {
      if prev.enable {
        enable := true;
      }
      r := Ok(());
    }
  }

  /** The flag the directive sets for a UTF-8 value. */
  function EnableOf(s: string): (b: bool)
    ensures b <==> s in {"on", "On", "oN", "ON"}
  {
    OnSpellings(s);
    EqIgnoreAsciiCase(s, "on")
  }

  /** One merge: a level's own flag or the one above it. */
  function MergeSpec(child: bool, prev: bool): (b: bool)
    ensures b <==> child || prev
  {
    if prev then true else child
  }

  /**
   * The flag at each level after the main, server and location levels
   * (outermost first) are merged top-down: each level merged with the
   * merged level above it.
   */
  function MergeDown(levels: seq<bool>): (merged: seq<bool>)
    ensures |merged| == |levels|
    decreases |levels|
  {
    if levels == [] then []
    else
      var above := MergeDown(levels[..|levels| - 1]);
      above + [MergeSpec(levels[|levels| - 1], if above == [] then false else above[|above| - 1])]
  }

  /** After merging, a level is enabled exactly when it or some level above it says `on`. */
  lemma {:induction false} MergeDownEnabled(levels: seq<bool>, k: nat)
    requires k < |levels|
    ensures MergeDown(levels)[k] <==> exists j :: 0 <= j <= k && levels[j]
    decreases |levels|
  {
    var init := levels[..|levels| - 1];
    var above := MergeDown(init);
    if k < |levels| - 1 {
      MergeDownEnabled(init, k);
      assert MergeDown(levels)[k] == above[k];
      assert forall j :: 0 <= j <= k ==> init[j] == levels[j];
    } else if k > 0 {
      MergeDownEnabled(init, k - 1);
      assert forall j :: 0 <= j <= k - 1 ==> init[j] == levels[j];
      if levels[k] {
        assert exists j :: 0 <= j <= k && levels[j];
      }
    }
  }

  // ---------------------------------------------------------------------
  // The access-phase handler
  // ---------------------------------------------------------------------

  /** `rc as u32` of an `ngx_int_t`: its low 32 bits. */
  function U32(rc: int): (u: nat)
    ensures u < 0x1_0000_0000
    ensures 0 <= rc < 0x1_0000_0000 ==> u == rc
    ensures -0x1_0000_0000 <= rc < 0 ==> u == rc + 0x1_0000_0000
  {
    rc % 0x1_0000_0000
  }

  /** What the handler returns, and whether it started reading the request body. */
  datatype AccessOutcome = AccessOutcome(status: int, readBody: bool)

  /**
   * `async_access_handler`: `enable` is the location's flag, `hasTask`
   * whether a task is already attached to the request, and `readRc` what
   * `ngx_http_read_client_request_body` returns if it is called.
   */
  function AccessHandler(enable: bool, hasTask: bool, readRc: int): (o: AccessOutcome)
    ensures !enable ==> o == AccessOutcome(NGX_DECLINED, false)
    ensures enable && hasTask ==> o == AccessOutcome(NGX_DONE, false)
    ensures o.readBody <==> enable && !hasTask
    ensures o.readBody ==> (o.status == readRc <==> U32(readRc) >= NGX_HTTP_SPECIAL_RESPONSE || readRc == NGX_DONE)
    ensures o.readBody && U32(readRc) < NGX_HTTP_SPECIAL_RESPONSE ==> o.status == NGX_DONE
  {
    if !enable then AccessOutcome(NGX_DECLINED, false)
    else if hasTask then AccessOutcome(NGX_DONE, false)
    else if U32(readRc) >= NGX_HTTP_SPECIAL_RESPONSE then AccessOutcome(readRc, true)
    else AccessOutcome(NGX_DONE, true)
  }

  /**
   * For an rc that fits in 32 signed bits, the unsigned comparison
   * passes through every negative rc (`NGX_ERROR`, `NGX_AGAIN`, ...) and
   * every special response, and turns the rest into `NGX_DONE`.
   */
  lemma AccessHandlerRc(readRc: int)
    requires -0x8000_0000 <= readRc < 0x8000_0000
    ensures AccessHandler(true, false, readRc).status
         == if readRc < 0 || readRc >= NGX_HTTP_SPECIAL_RESPONSE then readRc else NGX_DONE
  {
  }

  /** An rc of 2^32 and more wraps into the small range and is swallowed, although it is a special response. */
  lemma AccessHandlerWraps()
    ensures AccessHandler(true, false, 0x1_0000_0000 + 200).status == NGX_DONE
  {
  }

  // ---------------------------------------------------------------------
  // The write event handler
  // ---------------------------------------------------------------------

  /** The bits of the connection's write event the handler reads. */
  datatype WriteEvent = WriteEvent(timedout: bool, delayed: bool, active: bool, ready: bool, timerSet: bool)

  /** The calls the handler makes, in order. */
  datatype Effect =
    | Finalize(rc: int)
    | ConnectionError
    | OutputFilter
    | HandleWriteEvent
    | AddTimer
    | DelTimer

  /**
   * `write_event_handler`: `task` is the attached task's
   * `is_finished()` (`None` without one); `filterRc` and `handleRc` are
   * what `ngx_http_output_filter` and `ngx_handle_write_event` return.
   */
  function WriteEventHandler(task: Option<bool>, ev: WriteEvent, filterRc: int, handleRc: int): (effects: seq<Effect>)
    ensures |effects| > 0
    ensures effects[0] == Finalize(NGX_OK) <==> task == Some(true)
    ensures task == Some(true) ==> effects == [Finalize(NGX_OK)]
    ensures task != Some(true) && ev.timedout ==> effects == [ConnectionError]
    ensures task != Some(true) && !ev.timedout ==> effects[0] == OutputFilter
    ensures AddTimer in effects <==>
      (task != Some(true) && !ev.timedout && filterRc != NGX_ERROR && handleRc == NGX_OK
       && !ev.delayed && ev.active && !ev.ready)
    ensures DelTimer in effects <==>
      (task != Some(true) && !ev.timedout && filterRc != NGX_ERROR && handleRc == NGX_OK
       && !ev.delayed && !(ev.active && !ev.ready) && ev.timerSet)
  {
    if task == Some(true) then [Finalize(NGX_OK)]
    else if ev.timedout then [ConnectionError]
    else if filterRc == NGX_ERROR then [OutputFilter]
    else if handleRc != NGX_OK then [OutputFilter, HandleWriteEvent]
    else [OutputFilter, HandleWriteEvent] + TimerRule(ev)
  }

  /** The closing `delayed`/`active`/`ready`/`timer_set` rule of the handler. */
  function TimerRule(ev: WriteEvent): (effects: seq<Effect>)
    ensures |effects| <= 1
    ensures AddTimer in effects <==> !ev.delayed && ev.active && !ev.ready
    ensures DelTimer in effects <==> !ev.delayed && !(ev.active && !ev.ready) && ev.timerSet
  {
    if ev.delayed then []
    else if ev.active && !ev.ready then [AddTimer]
    else if ev.timerSet then [DelTimer]
    else []
  }

  /** The handler never both adds and deletes the timer, and finalizes only on a finished task. */
  lemma WriteEventExclusive(task: Option<bool>, ev: WriteEvent, filterRc: int, handleRc: int)
    ensures var e := WriteEventHandler(task, ev, filterRc, handleRc);
      !(AddTimer in e && DelTimer in e) && (Finalize(NGX_OK) in e <==> task == Some(true))
  {
  }
}
