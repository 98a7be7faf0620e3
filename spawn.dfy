/**
 * The async runtime's scheduler: runnables are run inline on the event-loop
 * thread, and queued plus announced with `ngx_notify` from any other thread;
 * the notify handler drains the queue on the event loop.
 *
 * Runnables are abstract identifiers, the calling thread is a parameter, and
 * running a runnable appends a `Ran` event to a trace (as does `ngx_notify`,
 * with a `Notified` event).
 */
module AsyncSpawn {
  import opened Results

  type ThreadId = nat
  type TaskId = nat

  /** One scheduled step of a task. */
  datatype Runnable = Runnable(task: TaskId, step: nat)

  /** What the scheduler makes happen: a runnable run on a thread, or an `ngx_notify` call. */
  datatype Event = Ran(runnable: Runnable, thread: ThreadId) | Notified

  /** Abstract value of the scheduler globals: `MAIN_TID`, the channel's queue, and the trace. */
  datatype SchedState = SchedState(mainTid: Option<ThreadId>, queue: seq<Runnable>, trace: seq<Event>)

  /** The state at process start: no thread recorded, nothing queued, nothing run. */
  const Initial: SchedState := SchedState(None, [], [])

  /** `on_event_thread`: the main thread id is recorded and equals the current one. */
  predicate OnEventThread(mainTid: Option<ThreadId>, current: ThreadId)
  {
    mainTid.Some? && mainTid.value == current
  }

  /** The events of running `rs` one after the other on thread `t`. */
  function Runs(rs: seq<Runnable>, t: ThreadId): (es: seq<Event>)
    ensures |es| == |rs|
    ensures forall k :: 0 <= k < |rs| ==> es[k] == Ran(rs[k], t)
  {
    if rs == [] then [] else Runs(rs[..|rs| - 1], t) + [Ran(rs[|rs| - 1], t)]
  }

  /** `Scheduler::schedule` on the abstract state. */
  function ScheduleSpec(s: SchedState, r: Runnable, current: ThreadId): SchedState
  {
    if OnEventThread(s.mainTid, current) then s.(trace := s.trace + [Ran(r, current)])
    else s.(queue := s.queue + [r], trace := s.trace + [Notified])
  }

  /** `notify_handler` on the abstract state: record the thread once, run the whole queue in order. */
  function DrainSpec(s: SchedState, current: ThreadId): SchedState
  {
    SchedState(if s.mainTid.None? then Some(current) else s.mainTid, [], s.trace + Runs(s.queue, current))
  }

  /** An operation on the scheduler, as the host performs it. */
  datatype Op = Schedule(runnable: Runnable, thread: ThreadId) | Drain(thread: ThreadId)

  function Step(s: SchedState, op: Op): SchedState
  {
    match op
    case Schedule(r, t) => ScheduleSpec(s, r, t)
    case Drain(t) => DrainSpec(s, t)
  }

  /** The state after performing `ops` in order from `s`. */
  function Exec(s: SchedState, ops: seq<Op>): SchedState
    decreases |ops|
  {
    if ops == [] then s else Step(Exec(s, ops[..|ops| - 1]), ops[|ops| - 1])
  }

  /** The runnables of the `Schedule` operations in `ops`, in order. */
  function Scheduled(ops: seq<Op>): seq<Runnable>
    decreases |ops|
  {
    if ops == [] then []
    else Scheduled(ops[..|ops| - 1]) + (if ops[|ops| - 1].Schedule? then [ops[|ops| - 1].runnable] else [])
  }

  /** The runnables of the `Ran` events in a trace, in order. */
  function RanOf(es: seq<Event>): seq<Runnable>
    decreases |es|
  {
    if es == [] then []
    else RanOf(es[..|es| - 1]) + (if es[|es| - 1].Ran? then [es[|es| - 1].runnable] else [])
  }

  /** `n` calls of `ngx_notify`. */
  function Notifies(n: nat): seq<Event>
  {
    if n == 0 then [] else Notifies(n - 1) + [Notified]
  }

  /** Once recorded, the main thread id never changes, whatever thread later drains. */
  lemma {:induction false} MainTidSetOnce(s: SchedState, ops: seq<Op>)
    requires s.mainTid.Some?
    ensures Exec(s, ops).mainTid == s.mainTid
  {
    if ops != [] {
      MainTidSetOnce(s, ops[..|ops| - 1]);
    }
  }

  /**
   * Before the first drain no thread is recorded, so every schedule, from any
   * thread, goes through the queue and calls `ngx_notify` once; nothing runs.
   */
  lemma {:induction false} BeforeFirstDrainAllQueued(ops: seq<Op>)
    requires forall k :: 0 <= k < |ops| ==> ops[k].Schedule?
    ensures Exec(Initial, ops) == SchedState(None, Scheduled(ops), Notifies(|ops|))
  {
    if ops != [] {
      BeforeFirstDrainAllQueued(ops[..|ops| - 1]);
    }
  }

  /**
   * The first drain records its thread and runs every runnable scheduled
   * before it exactly once, in the order they were scheduled.
   */
  lemma FirstDrainRunsAllInOrder(ops: seq<Op>, t: ThreadId)
    requires forall k :: 0 <= k < |ops| ==> ops[k].Schedule?
    ensures Exec(Initial, ops + [Drain(t)]) == SchedState(Some(t), [], Notifies(|ops|) + Runs(Scheduled(ops), t))
  {
    var all := ops + [Drain(t)];
    assert all[..|all| - 1] == ops;
    BeforeFirstDrainAllQueued(ops);
  }

  lemma {:induction false} RanOfRuns(es: seq<Event>, rs: seq<Runnable>, t: ThreadId)
    ensures RanOf(es + Runs(rs, t)) == RanOf(es) + rs
    decreases |rs|
  {
    if rs == [] {
      assert es + Runs(rs, t) == es;
    } else {
      var init := rs[..|rs| - 1];
      var whole := es + Runs(rs, t);
      assert Runs(rs, t) == Runs(init, t) + [Ran(rs[|rs| - 1], t)];
      assert whole[..|whole| - 1] == es + Runs(init, t);
      RanOfRuns(es, init, t);
      assert rs == init + [rs[|rs| - 1]];
    }
  }

  lemma RanOfAppend(es: seq<Event>, e: Event)
    ensures RanOf(es + [e]) == RanOf(es) + (if e.Ran? then [e.runnable] else [])
  {
    assert (es + [e])[..|es + [e]| - 1] == es;
  }

  /** One operation moves a runnable from "scheduled" to "queued" or "run", or from "queued" to "run". */
  lemma StepConserves(p: SchedState, op: Op)
    ensures multiset(RanOf(Step(p, op).trace)) + multiset(Step(p, op).queue)
         == multiset(RanOf(p.trace)) + multiset(p.queue) + multiset(if op.Schedule? then [op.runnable] else [])
  {
    match op
    case Schedule(r, t) =>
      if OnEventThread(p.mainTid, t) {
        RanOfAppend(p.trace, Ran(r, t));
      } else {
        RanOfAppend(p.trace, Notified);
      }
    case Drain(t) =>
      RanOfRuns(p.trace, p.queue, t);
  }

  /**
   * Nothing scheduled is lost or duplicated: every runnable ever scheduled has
   * either run exactly once or is still queued.
   */
  lemma {:induction false} ScheduledRunOrQueued(s: SchedState, ops: seq<Op>)
    ensures multiset(RanOf(Exec(s, ops).trace)) + multiset(Exec(s, ops).queue)
         == multiset(RanOf(s.trace)) + multiset(s.queue) + multiset(Scheduled(ops))
  {
    if ops != [] {
      var init := ops[..|ops| - 1];
      var op := ops[|ops| - 1];
      ScheduledRunOrQueued(s, init);
      StepConserves(Exec(s, init), op);
      assert Scheduled(ops) == Scheduled(init) + (if op.Schedule? then [op.runnable] else []);
      assert Exec(s, ops) == Step(Exec(s, init), op);
    }
  }

  /** Corollary: once the queue is drained empty, each scheduled runnable has run exactly once. */
  lemma ExactlyOnceWhenDrained(ops: seq<Op>)
    requires Exec(Initial, ops).queue == []
    ensures multiset(RanOf(Exec(Initial, ops).trace)) == multiset(Scheduled(ops))
  {
    ScheduledRunOrQueued(Initial, ops);
    var e := Exec(Initial, ops);
    var before: seq<Event> := [];
    assert RanOf(before) == [];
    assert Initial.trace == before;
    assert multiset(RanOf(e.trace)) + multiset(e.queue) == multiset(RanOf(e.trace));
  }

  /** Running the next queued runnable: the queue loses its head and the trace gains it. */
  lemma RunOneMore(q0: seq<Runnable>, cnt: nat, t: ThreadId)
    requires cnt < |q0|
    ensures q0[cnt..][0] == q0[cnt] && q0[cnt..][1..] == q0[cnt + 1..]
    ensures Runs(q0[..cnt + 1], t) == Runs(q0[..cnt], t) + [Ran(q0[cnt], t)]
  {
    assert q0[..cnt + 1][..cnt] == q0[..cnt];
  }

  /** The crossbeam channel behind `Scheduler`: a FIFO queue of runnables. */
  class Channel {
    var queue: seq<Runnable>

    /** `Scheduler::new`: a fresh unbounded channel. */
    constructor ()
      ensures queue == []
    {
      queue := [];
    }

    /** `Receiver::try_recv`: the oldest queued runnable, or `None` when the queue is empty. */
    method TryRecv() returns (r: Option<Runnable>)
      modifies this
      ensures old(queue) == [] ==> r.None? && queue == []
      ensures old(queue) != [] ==> r == Some(old(queue)[0]) && queue == old(queue)[1..]
    {
      if queue == [] {
        return None;
      }
      r := Some(queue[0]);
      queue := queue[1..];
    }
  }

  /** The process-wide globals of the runtime: `MAIN_TID`, `SCHEDULER`, and what has happened. */
  class Runtime {
    var mainTid: Option<ThreadId>
    var scheduler: Channel?
    var trace: seq<Event>
    /** Stands for the spawned task allocation done by `async_task::spawn_unchecked`. */
    var nextTask: TaskId

    constructor ()
      ensures State() == Initial && scheduler == null && nextTask == 0
    {
      mainTid := None;
      scheduler := null;
      trace := [];
      nextTask := 0;
    }

    /** The queue of the channel; empty while `SCHEDULER` is not initialised. */
    function Queue(): seq<Runnable>
      reads this, scheduler
    {
      if scheduler == null then [] else scheduler.queue
    }

    function State(): SchedState
      reads this, scheduler
    {
      SchedState(mainTid, Queue(), trace)
    }

    /** `scheduler()`: `SCHEDULER.get_or_init(Scheduler::new)`. */
    method GetScheduler() returns (ch: Channel)
      modifies this`scheduler
      ensures scheduler == ch
      ensures old(scheduler) != null ==> ch == old(scheduler) && ch.queue == old(ch.queue)
      ensures old(scheduler) == null ==> fresh(ch) && ch.queue == []
      ensures State() == old(State())
    {
      if scheduler == null {
        ch := new Channel();
        scheduler := ch;
      } else {
        ch := scheduler;
      }
    }

    /** `schedule` / `Scheduler::schedule`. */
    method Schedule(r: Runnable, current: ThreadId)
      modifies this, scheduler
      ensures scheduler != null && (old(scheduler) != null ==> scheduler == old(scheduler))
      ensures mainTid == old(mainTid) && nextTask == old(nextTask)
      ensures OnEventThread(mainTid, current) ==> Queue() == old(Queue()) && trace == old(trace) + [Ran(r, current)]
      ensures !OnEventThread(mainTid, current) ==> Queue() == old(Queue()) + [r] && trace == old(trace) + [Notified]
      ensures State() == ScheduleSpec(old(State()), r, current)
    {
      var ch := GetScheduler();
      if OnEventThread(mainTid, current) {
        trace := trace + [Ran(r, current)];
      } else {
        ch.queue := ch.queue + [r];
        trace := trace + [Notified];
      }
    }

    /** `notify_handler`; returns the number of runnables it processed (`cnt`). */
    method NotifyHandler(current: ThreadId) returns (cnt: nat)
      modifies this, scheduler
      ensures scheduler != null && (old(scheduler) != null ==> scheduler == old(scheduler))
      ensures cnt == |old(Queue())|
      ensures nextTask == old(nextTask)
      ensures State() == DrainSpec(old(State()), current)
    {
      if mainTid.None? {
        mainTid := Some(current);
      }
      var ch := GetScheduler();
      ghost var q0 := ch.queue;
      ghost var t0 := trace;
      cnt := 0;
      while true
        invariant scheduler == ch
        invariant mainTid == (if old(mainTid).None? then Some(current) else old(mainTid))
        invariant nextTask == old(nextTask)
        invariant cnt <= |q0| && ch.queue == q0[cnt..]
        invariant trace == t0 + Runs(q0[..cnt], current)
        decreases |ch.queue|
      {
        var r := ch.TryRecv();
        if r.None? {
          break;
        }
        RunOneMore(q0, cnt, current);
        trace := trace + [Ran(r.value, current)];
        cnt := cnt + 1;
      }
      assert q0[..cnt] == q0;
    }

    /** `spawn`: creates a task and schedules its first runnable once. */
    method Spawn(current: ThreadId) returns (task: TaskId)
      modifies this, scheduler
      ensures task == old(nextTask) && nextTask == task + 1
      ensures scheduler != null && (old(scheduler) != null ==> scheduler == old(scheduler))
      ensures mainTid == old(mainTid)
      ensures State() == ScheduleSpec(old(State()), Runnable(task, 0), current)
    {
      task := nextTask;
      nextTask := nextTask + 1;
      Schedule(Runnable(task, 0), current);
    }
  }
}
