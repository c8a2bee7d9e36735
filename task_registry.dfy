/** The task registry of app/lib/tasks/TaskManager.ts: the `taskStore` (the tasks
    record and the `isRunning` flag) and the `intervals` map, updated in place.
    `startTask` is split at its `await`: `StartTask` is everything up to the handler
    call, `FinishTask` the write made when the handler settles. An interval is
    represented by the id it belongs to. */
module TaskRegistry {
  import opened Common
  import opened TaskModel

  class TaskManager {
    var tasks: TaskTable
    var isRunning: bool
    /** Ids that have an interval set. */
    var intervals: set<string>

    ghost predicate Valid()
      reads this
    {
      tasks.Valid()
    }

    constructor ()
      ensures Valid() && tasks == EmptyTable && !isRunning && intervals == {}
    {
      tasks := EmptyTable;
      isRunning := false;
      intervals := {};
    }

    /** `registerTask`: stores the task idle and never run, replacing any entry with
        the same id; every other entry is left as it was. */
    method RegisterTask(spec: TaskSpec)
      requires Valid()
      modifies this`tasks
      ensures Valid()
      ensures tasks == old(tasks).Put(spec.id, Registered(spec))
    {
      tasks := tasks.Put(spec.id, Registered(spec));
    }

    /** The part of `startTask` before `await task.handler()`. */
    method StartTask(id: string) returns (run: Option<Run>)
      requires Valid()
      modifies this`tasks
      ensures Valid()
      ensures (tasks, run) == TryStart(old(tasks), id)
    {
      var snapshot := tasks;
      if id !in snapshot.byId || snapshot.byId[id].status == Running {
        return None;
      }
      var task := snapshot.byId[id];
      tasks := snapshot.Put(id, Begin(task));
      run := Some(Run(id, snapshot, task));
    }

    /** The part of `startTask` after the handler settled: the snapshot read on entry
        is written back with this task's entry updated, so every other entry returns
        to what it was when this run began. */
    method FinishTask(run: Run, outcome: Outcome, now: int)
      requires run.snapshot.Valid() && run.task.id == run.id
      modifies this`tasks
      ensures Valid()
      ensures tasks == Settled(run, outcome, now)
    {
      tasks := run.snapshot.Put(run.id, Settle(run.task, outcome, now));
    }

    /** `scheduleTask`: (re)sets the task's interval, and starts it at once when it has
        never run. */
    method ScheduleTask(task: Task) returns (run: Option<Run>)
      requires Valid()
      modifies this`tasks, this`intervals
      ensures Valid()
      ensures intervals == old(intervals) + {task.id}
      ensures task.lastRun.Some? ==> tasks == old(tasks) && run.None?
      ensures task.lastRun.None? ==> (tasks, run) == TryStart(old(tasks), task.id)
    {
      intervals := intervals + {task.id};
      run := None;
      if task.lastRun.None? {
        run := StartTask(task.id);
      }
    }

    /** `startAllTasks`: a no-op when already running. Otherwise it raises `isRunning`
        and visits the tasks in key order, giving each enabled task an interval and
        starting at once each enabled task that never ran. */
    method StartAllTasks() returns (runs: seq<Run>)
      requires Valid()
      modifies this
      ensures Valid()
      ensures old(isRunning) ==>
        isRunning && runs == [] && tasks == old(tasks) && intervals == old(intervals)
      ensures !old(isRunning) ==>
        && isRunning
        && intervals == old(intervals) + EnabledFirst(old(tasks), |old(tasks).ids|)
        && tasks.ids == old(tasks).ids
        && (forall id :: id in old(tasks).byId ==>
              && id in tasks.byId
              && tasks.byId[id] == (if StartsAtOnce(old(tasks).byId[id]) then Begin(old(tasks).byId[id]) else old(tasks).byId[id]))
        && RunIds(runs) == SelectFirst(old(tasks), |old(tasks).ids|, StartsAtOnce)
        && (forall run :: run in runs ==> run.id in old(tasks).byId && run.task == old(tasks).byId[run.id])
    {
      runs := [];
      if isRunning {
        return;
      }
      isRunning := true;
      ghost var t0 := tasks;
      runs := ScheduleEach(tasks);
      UpdateAllEntries(t0, StartsAtOnce, Begin);
    }

    /** The `forEach` of `startAllTasks` over the tasks read before the visit. */
    method ScheduleEach(t0: TaskTable) returns (runs: seq<Run>)
      requires tasks == t0 && t0.Valid()
      modifies this`tasks, this`intervals
      ensures tasks == UpdateFirst(t0, |t0.ids|, StartsAtOnce, Begin)
      ensures intervals == old(intervals) + EnabledFirst(t0, |t0.ids|)
      ensures RunIds(runs) == SelectFirst(t0, |t0.ids|, StartsAtOnce)
      ensures forall run :: run in runs ==> run.id in t0.byId && run.task == t0.byId[run.id]
    {
      runs := [];
      var ids := t0.ids;
      var i := 0;
      while i < |ids|
        invariant 0 <= i <= |ids|
        invariant tasks == UpdateFirst(t0, i, StartsAtOnce, Begin)
        invariant intervals == old(intervals) + EnabledFirst(t0, i)
        invariant RunIds(runs) == SelectFirst(t0, i, StartsAtOnce)
        invariant forall run :: run in runs ==> run.id in t0.byId && run.task == t0.byId[run.id]
      {
        var id := ids[i];
        var task := t0.byId[id];
        StartAllStep(t0, i);
        if task.enabled {
          var r := ScheduleTask(task);
          if r.Some? {
            assert (runs + [r.value])[..|runs|] == runs;
            runs := runs + [r.value];
          }
        }
        i := i + 1;
      }
    }

    /** `stopAllTasks`: every interval is cleared and `isRunning` lowered; the
        registrations are untouched. */
    method StopAllTasks()
      modifies this`intervals, this`isRunning
      ensures intervals == {} && !isRunning
    {
      intervals := {};
      isRunning := false;
    }

    /** `enableTask`: a no-op for an unknown id. Otherwise the flag is stored; enabling
        reschedules the task even when the manager is stopped, disabling removes that
        task's interval only. */
    method EnableTask(id: string, enabled: bool) returns (run: Option<Run>)
      requires Valid()
      modifies this`tasks, this`intervals
      ensures Valid()
      ensures id !in old(tasks).byId ==> tasks == old(tasks) && intervals == old(intervals) && run.None?
      ensures id in old(tasks).byId ==>
        var stored := old(tasks).Put(id, old(tasks).byId[id].(enabled := enabled));
        if enabled then
          && intervals == old(intervals) + {id}
          && (old(tasks).byId[id].lastRun.Some? ==> tasks == stored && run.None?)
          && (old(tasks).byId[id].lastRun.None? ==> (tasks, run) == TryStart(stored, id))
        else
          intervals == old(intervals) - {id} && tasks == stored && run.None?
    {
      run := None;
      if id !in tasks.byId {
        return;
      }
      var task := tasks.byId[id];
      tasks := tasks.Put(id, task.(enabled := enabled));
      if enabled {
        run := ScheduleTask(task.(enabled := enabled));
      } else {
        intervals := intervals - {id};
      }
    }
  }

  /** Two runs that overlap. `a` starts, then `b` starts, then `a` finishes: `a`'s
      write-back spreads the record read before `b` started, so `b` reads as idle
      while its handler is still in flight, and a second `startTask('b')` passes the
      running-guard and starts `b` again. */
  method StaleSnapshotTrace() returns (statusOfB: Status, startedAgain: bool)
    ensures statusOfB == Idle && startedAgain
  {
    var m := new TaskManager();
    m.RegisterTask(TaskSpec("a", "A", "", 1000, true));
    m.RegisterTask(TaskSpec("b", "B", "", 1000, true));
    var runA := m.StartTask("a");
    var runB := m.StartTask("b");
    assert runB.Some? && m.tasks.byId["b"].status == Running;
    m.FinishTask(runA.value, Pass, 5);
    statusOfB := m.tasks.byId["b"].status;
    var again := m.StartTask("b");
    startedAgain := again.Some?;
  }
}
