/** The task record shared by both task registries (app/lib/tasks/TaskManager.ts and
    app/lib/modules/llm/android/tasks/TaskManager.ts), the per-task state machine
    idle -> running -> idle | failed, and the `tasks` record of the store as a table
    that keeps the insertion order JavaScript gives to an object's string keys. */
module TaskModel {
  import opened Common

  datatype Status = Idle | Running | Failed

  /** A registered task; the handler itself is not part of the record here, its
      outcome is supplied when a run completes. */
  datatype Task = Task(
    id: string,
    name: string,
    description: string,
    interval: int,
    lastRun: Option<int>,
    status: Status,
    error: Option<string>,
    enabled: bool)

  /** The argument of `registerTask`: a task without `status` and `lastRun`. */
  datatype TaskSpec = TaskSpec(id: string, name: string, description: string, interval: int, enabled: bool)

  /** `{ ...task, status: 'idle', lastRun: null }`. */
  function Registered(s: TaskSpec): (t: Task)
    ensures t.id == s.id && t.status == Idle && t.lastRun.None? && t.enabled == s.enabled
    ensures t.name == s.name && t.description == s.description && t.interval == s.interval
  {
    Task(s.id, s.name, s.description, s.interval, None, Idle, None, s.enabled)
  }

  /** The write made before the handler is invoked. */
  function Begin(t: Task): (r: Task)
    ensures r.status == Running && r.error.None?
    ensures r.lastRun == t.lastRun && r.enabled == t.enabled && r.id == t.id
  {
    t.(status := Running, error := None)
  }

  /** The write made when the handler settles, spread over the entry read at the
      start of the call: success records `now` and clears the error, failure keeps
      the old `lastRun` and records the message. */
  function Settle(t: Task, outcome: Outcome, now: int): (r: Task)
    ensures outcome.Pass? ==> r.status == Idle && r.lastRun == Some(now) && r.error.None?
    ensures outcome.Fail? ==> r.status == Failed && r.lastRun == t.lastRun && r.error == Some(outcome.error)
    ensures r.id == t.id && r.enabled == t.enabled && r.interval == t.interval
  {
    match outcome
    case Pass => t.(status := Idle, lastRun := Some(now), error := None)
    case Fail(msg) => t.(status := Failed, error := Some(msg))
  }

  /** The `tasks` record: entries by id, and the ids in insertion order. */
  datatype TaskTable = TaskTable(ids: seq<string>, byId: map<string, Task>)
  {
    ghost predicate Valid()
    {
      && NoDup(ids)
      && (forall id :: id in byId <==> id in ids)
      && (forall id :: id in byId ==> byId[id].id == id)
    }

    /** `{ ...tasks, [id]: t }`: an existing key keeps its place, a new one goes last. */
    function Put(id: string, t: Task): (r: TaskTable)
      ensures Valid() && t.id == id ==> r.Valid()
      ensures r.byId == byId[id := t]
      ensures ids <= r.ids && |r.ids| <= |ids| + 1
    {
      TaskTable(if id in ids then ids else ids + [id], byId[id := t])
    }
  }

  const EmptyTable := TaskTable([], map[])

  /** What a started run remembers: the id, the whole `tasks` record read on entry,
      and that task's entry as it was then. */
  datatype Run = Run(id: string, snapshot: TaskTable, task: Task)

  /** The table a run leaves behind when it settles: its entry-time snapshot with only
      its own entry updated. */
  function Settled(run: Run, outcome: Outcome, now: int): (r: TaskTable)
    ensures run.snapshot.Valid() && run.task.id == run.id ==> r.Valid()
    ensures run.id in r.byId && r.byId[run.id] == Settle(run.task, outcome, now)
    ensures forall other :: other != run.id && other in run.snapshot.byId ==>
      other in r.byId && r.byId[other] == run.snapshot.byId[other]
  {
    run.snapshot.Put(run.id, Settle(run.task, outcome, now))
  }

  /** The start guard of `startTask`: an unknown id or a task already running gives
      no run and no write; otherwise the entry is marked running and the run keeps
      the record it read on entry. */
  function TryStart(t: TaskTable, id: string): (r: (TaskTable, Option<Run>))
    ensures (id !in t.byId || t.byId[id].status == Running) ==> r.0 == t && r.1.None?
    ensures id in t.byId && t.byId[id].status != Running ==>
      && r.1 == Some(Run(id, t, t.byId[id]))
      && r.0 == t.Put(id, Begin(t.byId[id]))
    ensures t.Valid() ==> r.0.Valid()
  {
    if id !in t.byId || t.byId[id].status == Running then (t, None)
    else (t.Put(id, Begin(t.byId[id])), Some(Run(id, t, t.byId[id])))
  }

  /** The tasks `scheduleTask` starts at once when visited in `ids` order:
      enabled, never run, and not running already. */
  predicate StartsAtOnce(t: Task)
  {
    t.enabled && t.lastRun.None? && t.status != Running
  }

  /** Among the first `n` ids of the record, in key order, those whose task is
      selected by `sel`. */
  function SelectFirst(t: TaskTable, n: nat, sel: Task -> bool): seq<string>
    requires t.Valid() && n <= |t.ids|
  {
    if n == 0 then []
    else
      var id := t.ids[n - 1];
      SelectFirst(t, n - 1, sel) + (if sel(t.byId[id]) then [id] else [])
  }

  /** Among the first `n` ids of the record, those whose task is enabled. */
  function EnabledFirst(t: TaskTable, n: nat): set<string>
    requires t.Valid() && n <= |t.ids|
  {
    if n == 0 then {}
    else
      var id := t.ids[n - 1];
      EnabledFirst(t, n - 1) + (if t.byId[id].enabled then {id} else {})
  }

  /** The record after visiting the first `n` ids in key order and writing `f(task)`
      for each task that `sel` selects, each task read from `t`. */
  function UpdateFirst(t: TaskTable, n: nat, sel: Task -> bool, f: Task -> Task): TaskTable
    requires t.Valid() && n <= |t.ids|
  {
    if n == 0 then t
    else
      var id := t.ids[n - 1];
      var prev := UpdateFirst(t, n - 1, sel, f);
      if sel(t.byId[id]) then prev.Put(id, f(t.byId[id])) else prev
  }

  /** After visiting the first `n` ids, a selected entry among them holds `f` of its
      old value and every other entry is unchanged; the key order is kept. */
  lemma {:induction false} UpdateFirstEntries(t: TaskTable, n: nat, sel: Task -> bool, f: Task -> Task)
    requires t.Valid() && n <= |t.ids|
    requires forall task :: f(task).id == task.id
    ensures UpdateFirst(t, n, sel, f).Valid() && UpdateFirst(t, n, sel, f).ids == t.ids
    ensures forall j :: 0 <= j < |t.ids| ==>
      && t.ids[j] in UpdateFirst(t, n, sel, f).byId
      && UpdateFirst(t, n, sel, f).byId[t.ids[j]] ==
           (if j < n && sel(t.byId[t.ids[j]]) then f(t.byId[t.ids[j]]) else t.byId[t.ids[j]])
  {
    if n > 0 {
      UpdateFirstEntries(t, n - 1, sel, f);
      UpdateFirstStep(t, n, sel, f, UpdateFirst(t, n - 1, sel, f));
    }
  }

  /** What `UpdateFirstEntries` states of a record `u`, for the first `n` ids. */
  ghost predicate EntriesAfter(t: TaskTable, u: TaskTable, n: nat, sel: Task -> bool, f: Task -> Task)
    requires t.Valid()
  {
    && u.Valid() && u.ids == t.ids
    && forall j :: 0 <= j < |t.ids| ==>
      && t.ids[j] in u.byId
      && u.byId[t.ids[j]] == (if j < n && sel(t.byId[t.ids[j]]) then f(t.byId[t.ids[j]]) else t.byId[t.ids[j]])
  }

  /** Visiting the `n`-th id writes its entry and no other. */
  lemma UpdateFirstStep(t: TaskTable, n: nat, sel: Task -> bool, f: Task -> Task, prev: TaskTable)
    requires t.Valid() && 0 < n <= |t.ids|
    requires forall task :: f(task).id == task.id
    requires EntriesAfter(t, prev, n - 1, sel, f)
    ensures var id := t.ids[n - 1];
      EntriesAfter(t, if sel(t.byId[id]) then prev.Put(id, f(t.byId[id])) else prev, n, sel, f)
  {
    var id := t.ids[n - 1];
    forall j | 0 <= j < |t.ids| && j != n - 1 ensures t.ids[j] != id {
    }
  }

  /** The whole visit, per id. */
  lemma UpdateAllEntries(t: TaskTable, sel: Task -> bool, f: Task -> Task)
    requires t.Valid()
    requires forall task :: f(task).id == task.id
    ensures UpdateFirst(t, |t.ids|, sel, f).Valid() && UpdateFirst(t, |t.ids|, sel, f).ids == t.ids
    ensures forall id :: id in t.byId ==>
      && id in UpdateFirst(t, |t.ids|, sel, f).byId
      && UpdateFirst(t, |t.ids|, sel, f).byId[id] == (if sel(t.byId[id]) then f(t.byId[id]) else t.byId[id])
  {
    UpdateFirstEntries(t, |t.ids|, sel, f);
    forall id | id in t.byId
      ensures UpdateFirst(t, |t.ids|, sel, f).byId[id] == (if sel(t.byId[id]) then f(t.byId[id]) else t.byId[id])
    {
      var j :| 0 <= j < |t.ids| && t.ids[j] == id;
    }
  }

  /** One step of the `startAllTasks` visit: starting the `i`-th task, when it is
      enabled and never ran, takes the record from `i` visited ids to `i + 1`. */
  lemma StartAllStep(t: TaskTable, i: nat)
    requires t.Valid() && i < |t.ids|
    ensures var id := t.ids[i];
      var task := t.byId[id];
      var before := UpdateFirst(t, i, StartsAtOnce, Begin);
      && before.Valid()
      && task.id == id
      && (task.enabled && task.lastRun.None? ==>
            TryStart(before, id) == (UpdateFirst(t, i + 1, StartsAtOnce, Begin),
                                     if StartsAtOnce(task) then Some(Run(id, before, task)) else None))
      && (!(task.enabled && task.lastRun.None?) ==> UpdateFirst(t, i + 1, StartsAtOnce, Begin) == before)
  {
    UpdateFirstEntries(t, i, StartsAtOnce, Begin);
  }

  /** After the whole visit every selected id has been picked, and every enabled id
      collected. */
  lemma {:induction false} VisitCollects(t: TaskTable, n: nat, sel: Task -> bool)
    requires t.Valid() && n <= |t.ids|
    ensures forall j :: 0 <= j < n && sel(t.byId[t.ids[j]]) ==> t.ids[j] in SelectFirst(t, n, sel)
    ensures forall j :: 0 <= j < n && t.byId[t.ids[j]].enabled ==> t.ids[j] in EnabledFirst(t, n)
  {
    if n > 0 {
      VisitCollects(t, n - 1, sel);
    }
  }

  /** The ids of a list of runs, in order. */
  function RunIds(runs: seq<Run>): (r: seq<string>)
    ensures |r| == |runs| && forall k :: 0 <= k < |runs| ==> r[k] == runs[k].id
  {
    if runs == [] then [] else RunIds(runs[..|runs| - 1]) + [runs[|runs| - 1].id]
  }
}
