/** The Android task registry of app/lib/modules/llm/android/tasks/TaskManager.ts:
    the same `taskStore` and `intervals` as the browser registry, but the whole
    registry is started and stopped through the background service, and the
    service's handler makes passes over the tasks, running each due task and
    awaiting it before the next. */
module BackgroundTasks {
  import opened Common
  import opened TaskModel

  /** The time test of `backgroundTaskHandler`: `lastRun` null or 0 counts as never
      run (the distance is then Infinity); otherwise the distance must reach the
      interval. */
  predicate Due(t: Task, now: int)
  {
    t.lastRun.None? || t.lastRun.value == 0 || now - t.lastRun.value >= t.interval
  }

  /** A task the pass runs: enabled, due, and not already running (the running-guard
      of `startTask`). */
  predicate RunsInPass(t: Task, now: int)
  {
    t.enabled && Due(t, now) && t.status != Running
  }

  /** A `lastRun` of 0 is falsy, so such a task is due at any time, whatever its
      interval. */
  lemma LastRunZeroIsDue(t: Task, now: int)
    requires t.lastRun == Some(0)
    ensures Due(t, now)
  {
  }

  /** A task that ran less than one interval ago (and not at time 0) is not due. */
  lemma RecentRunNotDue(t: Task, now: int)
    requires t.lastRun.Some? && t.lastRun.value != 0 && now - t.lastRun.value < t.interval
    ensures !Due(t, now)
  {
  }

  /** Being due only grows with time: a task due at one clock reading is due at any
      later one, so a task tested later in a pass (after earlier handlers were
      awaited) can be due where it was not at the pass's start. */
  lemma DueLater(t: Task, earlier: int, later: int)
    requires earlier <= later && Due(t, earlier)
    ensures Due(t, later)
  {
  }

  /** The selection and the write of one pass, as function values. A pass reads the
      clock afresh for each task it tests and again when each handler settles, and
      every id is visited once per pass, so both readings are given per id:
      `testAt(id)` is the time of that task's due test and `doneAt(id)` the time its
      success is recorded. */
  function PassSelects(testAt: string -> int): Task -> bool
  {
    (t: Task) => RunsInPass(t, testAt(t.id))
  }

  function PassWrites(doneAt: string -> int, outcomeOf: string -> Outcome): Task -> Task
  {
    (t: Task) => Settle(t, outcomeOf(t.id), doneAt(t.id))
  }

  /** One step of a pass: running the `i`-th task when it is enabled and due takes
      the record from `i` visited ids to `i + 1`. */
  lemma PassStep(t: TaskTable, i: nat, testAt: string -> int, doneAt: string -> int, outcomeOf: string -> Outcome)
    requires t.Valid() && i < |t.ids|
    ensures var id := t.ids[i];
      var task := t.byId[id];
      var sel := PassSelects(testAt);
      var f := PassWrites(doneAt, outcomeOf);
      var before := UpdateFirst(t, i, sel, f);
      && before.Valid()
      && task.id == id
      && (task.enabled && Due(task, testAt(id)) ==>
            TryStart(before, id) ==
              (if task.status != Running then (before.Put(id, Begin(task)), Some(Run(id, before, task))) else (before, None)))
      && (RunsInPass(task, testAt(id)) ==> Settled(Run(id, before, task), outcomeOf(id), doneAt(id)) == UpdateFirst(t, i + 1, sel, f))
      && (!RunsInPass(task, testAt(id)) ==> UpdateFirst(t, i + 1, sel, f) == before)
      && SelectFirst(t, i + 1, sel) == SelectFirst(t, i, sel) + (if RunsInPass(task, testAt(id)) then [id] else [])
  {
    UpdateFirstEntries(t, i, PassSelects(testAt), PassWrites(doneAt, outcomeOf));
  }

  // ---------------------------------------------------------------------
  // As written: app/lib/modules/llm/android/tasks/TaskManager.ts calls `logger`
  // but never declares or imports it, so every log call throws a ReferenceError.
  // The members below give what follows from that; the class further down models
  // the registry with working log calls.
  // ---------------------------------------------------------------------

  const LoggerMissing := "logger is not defined"

  /** `startTask` as written, once the handler settled. On success the idle write is
      followed by `logger.info`, which throws into the catch; the catch spreads the
      entry read on entry with status `failed` and the message it caught, then throws
      again from `logger.error`. So the entry always ends `failed` with its old
      `lastRun`, and the call always rejects. */
  function SettleAsWritten(t: Task, outcome: Outcome, now: int): (r: (Task, Outcome))
    ensures r.0.status == Failed && r.0.lastRun == t.lastRun && r.0.id == t.id
    ensures r.0.error == Some(if outcome.Pass? then LoggerMissing else outcome.error)
    ensures r.1 == Fail(LoggerMissing)
  {
    (Settle(t, Fail(if outcome.Pass? then LoggerMissing else outcome.error), now), Fail(LoggerMissing))
  }

  /** A handler that succeeds leaves its task `failed` as written, where the intended
      write leaves it idle with `lastRun = now`. */
  lemma SuccessEndsFailedAsWritten(t: Task, now: int)
    ensures SettleAsWritten(t, Pass, now).0.status == Failed
    ensures Settle(t, Pass, now).status == Idle && Settle(t, Pass, now).lastRun == Some(now)
    ensures SettleAsWritten(t, Pass, now).0 != Settle(t, Pass, now)
  {
  }

  /** The ids one pass of `backgroundTaskHandler` runs as written: the first task it
      runs makes `startTask` reject, the loop's catch then throws from
      `logger.error`, and the handler (so the service loop) ends there. */
  function PassRunsAsWritten(t: TaskTable, testAt: string -> int): (r: seq<string>)
    requires t.Valid()
  {
    var all := SelectFirst(t, |t.ids|, PassSelects(testAt));
    if all == [] then [] else [all[0]]
  }

  /** As written a pass runs at most the first task due, and when two or more are
      due it runs fewer than the intended pass (`TaskManager.BackgroundPass`),
      which runs every one of them. */
  lemma PassAsWrittenStopsEarly(t: TaskTable, testAt: string -> int)
    requires t.Valid()
    ensures var due := SelectFirst(t, |t.ids|, PassSelects(testAt));
      && |PassRunsAsWritten(t, testAt)| <= 1
      && (due != [] ==> PassRunsAsWritten(t, testAt) == due[..1])
      && (|due| >= 2 ==> |PassRunsAsWritten(t, testAt)| < |due|)
  {
  }

  /** `startAllTasks` and `stopAllTasks` as written: past the `isRunning` guard both
      log on the way out of the try and again in the catch, so both always reject.
      `startAllTasks` still raises `isRunning` when the service started, and
      `stopAllTasks` still clears the intervals and lowers it when the service
      stopped. */
  function StartAllAsWritten(isRunning: bool, serviceStart: Outcome): (r: (bool, Outcome))
    ensures isRunning ==> r == (true, Pass)
    ensures !isRunning ==> r.1 == Fail(LoggerMissing) && r.0 == serviceStart.Pass?
  {
    if isRunning then (true, Pass) else (serviceStart.Pass?, Fail(LoggerMissing))
  }

  function StopAllAsWritten(isRunning: bool, intervals: set<string>, serviceStop: Outcome): (r: (bool, set<string>, Outcome))
    ensures r.2 == Fail(LoggerMissing)
    ensures serviceStop.Pass? ==> !r.0 && r.1 == {}
    ensures serviceStop.Fail? ==> r.0 == isRunning && r.1 == intervals
  {
    if serviceStop.Pass? then (false, {}, Fail(LoggerMissing)) else (isRunning, intervals, Fail(LoggerMissing))
  }

  /** A successful service start is still reported as a failure as written. */
  lemma StartAllAsWrittenRejects(serviceStart: Outcome)
    requires serviceStart.Pass?
    ensures StartAllAsWritten(false, serviceStart) == (true, Fail(LoggerMissing))
  {
  }

  class TaskManager {
    var tasks: TaskTable
    var isRunning: bool
    var intervals: set<string>

    ghost predicate Valid()
      reads this
    {
      tasks.Valid()
    }

    constructor ()
      ensures Valid() && tasks == EmptyTable && !isRunning && intervals == {}
    {
      tasks := EmptyTable;
      isRunning := false;
      intervals := {};
    }

    /** `startAllTasks`: a no-op when running. `isRunning` is raised only once the
        background service started; a failure to start is rethrown and changes
        nothing. No per-task interval is created. */
    method StartAllTasks(serviceStart: Outcome) returns (result: Outcome)
      modifies this`isRunning
      ensures old(isRunning) ==> result == Pass && isRunning
      ensures !old(isRunning) ==> result == serviceStart && isRunning == serviceStart.Pass?
    {
      if isRunning {
        return Pass;
      }
      result := serviceStart;
      if serviceStart.Pass? {
        isRunning := true;
      }
    }

    /** `stopAllTasks`: once the service stopped, every interval is cleared and
        `isRunning` lowered; a failure to stop is rethrown before either happens. */
    method StopAllTasks(serviceStop: Outcome) returns (result: Outcome)
      modifies this`intervals, this`isRunning
      ensures result == serviceStop
      ensures serviceStop.Pass? ==> intervals == {} && !isRunning
      ensures serviceStop.Fail? ==> intervals == old(intervals) && isRunning == old(isRunning)
    {
      result := serviceStop;
      if serviceStop.Pass? {
        intervals := {};
        isRunning := false;
      }
    }

    /** `registerTask`: idle and never run, replacing any entry with the same id. */
    method RegisterTask(spec: TaskSpec)
      requires Valid()
      modifies this`tasks
      ensures Valid()
      ensures tasks == old(tasks).Put(spec.id, Registered(spec))
    {
      tasks := tasks.Put(spec.id, Registered(spec));
    }

    /** The part of `startTask` before the handler is awaited. */
    method StartTask(id: string) returns (run: Option<Run>)
      requires Valid()
      modifies this`tasks
      ensures Valid()
      ensures (tasks, run) == TryStart(old(tasks), id)
    {
      var snapshot := tasks;
      if id !in snapshot.byId || snapshot.byId[id].status == Running {
        return None;
      }
      var task := snapshot.byId[id];
      tasks := snapshot.Put(id, Begin(task));
      run := Some(Run(id, snapshot, task));
    }

    /** The write-back of `startTask` once the handler settled, spread over the record
        read on entry. */
    method FinishTask(run: Run, outcome: Outcome, now: int)
      requires run.snapshot.Valid() && run.task.id == run.id
      modifies this`tasks
      ensures Valid()
      ensures tasks == Settled(run, outcome, now)
    {
      tasks := run.snapshot.Put(run.id, Settle(run.task, outcome, now));
    }

    /** `scheduleTask`: (re)sets the task's interval and starts a never-run task. */
    method ScheduleTask(task: Task) returns (run: Option<Run>)
      requires Valid()
      modifies this`tasks, this`intervals
      ensures Valid()
      ensures intervals == old(intervals) + {task.id}
      ensures task.lastRun.Some? ==> tasks == old(tasks) && run.None?
      ensures task.lastRun.None? ==> (tasks, run) == TryStart(old(tasks), task.id)
    {
      intervals := intervals + {task.id};
      run := None;
      if task.lastRun.None? {
        run := StartTask(task.id);
      }
    }

    /** `enableTask`: a no-op for an unknown id; otherwise the flag is stored, and
        enabling reschedules while disabling deletes only that id's interval. */
    method EnableTask(id: string, enabled: bool) returns (run: Option<Run>)
      requires Valid()
      modifies this`tasks, this`intervals
      ensures Valid()
      ensures id !in old(tasks).byId ==> tasks == old(tasks) && intervals == old(intervals) && run.None?
      ensures id in old(tasks).byId ==>
        var stored := old(tasks).Put(id, old(tasks).byId[id].(enabled := enabled));
        if enabled then
          && intervals == old(intervals) + {id}
          && (old(tasks).byId[id].lastRun.Some? ==> tasks == stored && run.None?)
          && (old(tasks).byId[id].lastRun.None? ==> (tasks, run) == TryStart(stored, id))
        else
          intervals == old(intervals) - {id} && tasks == stored && run.None?
    {
      run := None;
      if id !in tasks.byId {
        return;
      }
      var task := tasks.byId[id];
      tasks := tasks.Put(id, task.(enabled := enabled));
      if enabled {
        run := ScheduleTask(task.(enabled := enabled));
      } else {
        intervals := intervals - {id};
      }
    }

    /** One pass of `backgroundTaskHandler` over the tasks read at its start. Each
        enabled, due task is started and awaited before the next is looked at;
        `testAt` and `doneAt` are the clock readings of each due test and each
        success write, and `outcomeOf` says how each handler settles. Afterwards each
        task that ran holds the settled state of its old entry, the others are
        unchanged, and
        `ran` lists the tasks that ran in key order. */
    method BackgroundPass(testAt: string -> int, doneAt: string -> int, outcomeOf: string -> Outcome) returns (ran: seq<string>)
      requires Valid()
      modifies this`tasks
      ensures Valid()
      ensures tasks.ids == old(tasks).ids
      ensures ran == SelectFirst(old(tasks), |old(tasks).ids|, PassSelects(testAt))
      ensures forall id :: id in old(tasks).byId ==>
        && id in tasks.byId
        && tasks.byId[id] ==
             (if RunsInPass(old(tasks).byId[id], testAt(id))
              then Settle(old(tasks).byId[id], outcomeOf(id), doneAt(id))
              else old(tasks).byId[id])
    {
      var t0 := tasks;
      var ids := t0.ids;
      ran := [];
      var i := 0;
      while i < |ids|
        invariant 0 <= i <= |ids|
        invariant tasks == UpdateFirst(t0, i, PassSelects(testAt), PassWrites(doneAt, outcomeOf))
        invariant ran == SelectFirst(t0, i, PassSelects(testAt))
      {
        var didRun := PassVisit(t0, i, testAt, doneAt, outcomeOf);
        if didRun {
          ran := ran + [ids[i]];
        }
        i := i + 1;
      }
      UpdateAllEntries(t0, PassSelects(testAt), PassWrites(doneAt, outcomeOf));
    }

    /** The loop body of a pass for the `i`-th id: the task is tested against the
        clock read for it, started and awaited when it is enabled and due, and its
        success recorded at the clock read after the handler; `didRun` says whether
        it ran. */
    method PassVisit(t0: TaskTable, i: nat, testAt: string -> int, doneAt: string -> int, outcomeOf: string -> Outcome)
      returns (didRun: bool)
      requires t0.Valid() && i < |t0.ids|
      requires tasks == UpdateFirst(t0, i, PassSelects(testAt), PassWrites(doneAt, outcomeOf))
      modifies this`tasks
      ensures tasks == UpdateFirst(t0, i + 1, PassSelects(testAt), PassWrites(doneAt, outcomeOf))
      ensures didRun == RunsInPass(t0.byId[t0.ids[i]], testAt(t0.ids[i]))
      ensures SelectFirst(t0, i + 1, PassSelects(testAt)) ==
        SelectFirst(t0, i, PassSelects(testAt)) + (if didRun then [t0.ids[i]] else [])
    {
      var id := t0.ids[i];
      var task := t0.byId[id];
      var now := testAt(id);
      PassStep(t0, i, testAt, doneAt, outcomeOf);
      didRun := false;
      if task.enabled && Due(task, now) {
        var run := StartTask(id);
        if run.Some? {
          FinishTask(run.value, outcomeOf(id), doneAt(id));
          didRun := true;
        }
      }
    }
  }
}
