/** The system tasks of app/lib/tasks/systemTasks.ts: the three tasks registered
    with the browser registry before it is started, and the bodies of their
    handlers over the stores they touch. The log store, the workbench files and the
    system log are fields of `SystemStores`; a workbench file set to `undefined` is
    `None`. `storage.optimize` is not part of this model: the storage-optimization
    handler's outcome is its outcome. */
module SystemTasks {
  import opened Common
  import opened TaskModel
  import opened TaskRegistry

  const HourMs := 60 * 60 * 1000
  const WeekMs := 7 * 24 * HourMs
  const KeptLogs := 1000
  const TmpMarker := "/tmp/"
  const ReminderText := "Backup reminder: Please backup your data"

  const DataCleanup := TaskSpec("data-cleanup", "Data Cleanup", "Removes old logs and temporary files", 24 * HourMs, true)
  const StorageOptimization := TaskSpec("storage-optimization", "Storage Optimization", "Optimizes storage usage and compresses data", 12 * HourMs, true)
  const BackupReminder := TaskSpec("backup-reminder", "Backup Reminder", "Reminds users to backup their data", WeekMs, true)

  /** The registrations, in the order they are made. */
  const Specs := [DataCleanup, StorageOptimization, BackupReminder]

  /** The reminder test: no `lastBackupDate` (or 0, which is falsy), or one strictly
      more than seven days old. */
  predicate ReminderDue(lastBackup: Option<int>, now: int)
  {
    lastBackup.None? || lastBackup.value == 0 || now - lastBackup.value > WeekMs
  }

  class SystemStores {
    var logs: seq<string>
    var files: map<string, Option<string>>
    var systemLogs: seq<string>

    constructor (logs: seq<string>, files: map<string, Option<string>>)
      ensures this.logs == logs && this.files == files && systemLogs == []
    {
      this.logs := logs;
      this.files := files;
      systemLogs := [];
    }

    /** The data-cleanup handler: over 1000 logs, the last 1000 are written back in
        order; then every workbench file whose path contains `/tmp/` is set to
        `undefined`, and every other file is left as it was. */
    method DataCleanupHandler()
      modifies this`logs, this`files
      ensures |old(logs)| > KeptLogs ==> logs == old(logs)[|old(logs)| - KeptLogs..] && |logs| == KeptLogs
      ensures |old(logs)| <= KeptLogs ==> logs == old(logs)
      ensures files.Keys == old(files).Keys
      ensures forall p :: p in files ==> files[p] == if Contains(p, TmpMarker) then None else old(files)[p]
    {
      if |logs| > KeptLogs {
        logs := logs[|logs| - KeptLogs..];
      }
      ClearTempFiles();
    }

    /** The loop of the data-cleanup handler over the temporary files. */
    method ClearTempFiles()
      modifies this`files
      ensures files.Keys == old(files).Keys
      ensures forall p :: p in files ==> files[p] == if Contains(p, TmpMarker) then None else old(files)[p]
    {
      var tempFiles := set p | p in files && Contains(p, TmpMarker);
      while tempFiles != {}
        invariant tempFiles <= files.Keys
        invariant files.Keys == old(files).Keys
        invariant forall p :: p in files ==>
          files[p] == if Contains(p, TmpMarker) && p !in tempFiles then None else old(files)[p]
        invariant forall p :: p in tempFiles ==> Contains(p, TmpMarker)
        decreases |tempFiles|
      {
        var p :| p in tempFiles;
        files := files[p := None];
        tempFiles := tempFiles - {p};
      }
    }

    /** The backup-reminder handler at time `now`, given `lastBackupDate`. */
    method BackupReminderHandler(lastBackup: Option<int>, now: int)
      modifies this`systemLogs
      ensures ReminderDue(lastBackup, now) ==> systemLogs == old(systemLogs) + [ReminderText]
      ensures lastBackup.Some? && lastBackup.value != 0 && now - lastBackup.value <= WeekMs ==> systemLogs == old(systemLogs)
    {
      if ReminderDue(lastBackup, now) {
        systemLogs := systemLogs + [ReminderText];
      }
    }
  }

  const SpecIds := {DataCleanup.id, StorageOptimization.id, BackupReminder.id}

  /** The task record after the three registrations: each spec's entry is its fresh
      registration, every other entry is kept, and the existing keys keep their order
      with any new spec ids after them. */
  function Registrations(t: TaskTable): (r: TaskTable)
    ensures t.Valid() ==> r.Valid()
    ensures forall s :: s in Specs ==> s.id in r.byId && r.byId[s.id] == Registered(s)
    ensures forall id :: id !in SpecIds ==> (id in r.byId <==> id in t.byId)
    ensures forall id :: id in t.byId && id !in SpecIds ==> r.byId[id] == t.byId[id]
    ensures t.ids <= r.ids
  {
    var r := t.Put(DataCleanup.id, Registered(DataCleanup))
      .Put(StorageOptimization.id, Registered(StorageOptimization))
      .Put(BackupReminder.id, Registered(BackupReminder));
    SpecsRegistered(t.byId, r.byId);
    r
  }

  /** The three registrations, in order. */
  method RegisterAll(tm: TaskManager)
    requires tm.Valid()
    modifies tm`tasks
    ensures tm.Valid()
    ensures tm.tasks == Registrations(old(tm.tasks))
  {
    tm.RegisterTask(DataCleanup);
    tm.RegisterTask(StorageOptimization);
    tm.RegisterTask(BackupReminder);
  }

  lemma SpecsRegistered(before: map<string, Task>, after: map<string, Task>)
    requires after == before[DataCleanup.id := Registered(DataCleanup)]
      [StorageOptimization.id := Registered(StorageOptimization)]
      [BackupReminder.id := Registered(BackupReminder)]
    ensures forall s :: s in Specs ==> s.id in after && after[s.id] == Registered(s)
  {
    assert Specs[0].id == "data-cleanup" && Specs[1].id == "storage-optimization";
    assert Specs[2].id == "backup-reminder";
    assert forall i, j :: 0 <= i < j < 3 ==> Specs[i].id != Specs[j].id;
  }

  /** A visit of a record holding the three fresh registrations selects all three. */
  lemma VisitCollectsSpecs(t: TaskTable)
    requires t.Valid()
    requires forall s :: s in Specs ==> s.id in t.byId && t.byId[s.id] == Registered(s)
    ensures forall s :: s in Specs ==>
      s.id in EnabledFirst(t, |t.ids|) && s.id in SelectFirst(t, |t.ids|, StartsAtOnce)
  {
    VisitCollects(t, |t.ids|, StartsAtOnce);
    forall s | s in Specs
      ensures s.id in EnabledFirst(t, |t.ids|) && s.id in SelectFirst(t, |t.ids|, StartsAtOnce)
    {
      var j :| 0 <= j < |t.ids| && t.ids[j] == s.id;
    }
  }

  /** `initializeSystemTasks`: the three registrations, then `startAllTasks`. On a
      stopped registry every enabled, never-run task of the record (so all three
      system tasks) gets an interval and starts at once; on a running one the tasks
      are only registered and nothing else changes. */
  method InitializeSystemTasks(tm: TaskManager) returns (runs: seq<Run>)
    requires tm.Valid()
    modifies tm
    ensures tm.Valid()
    ensures forall s :: s in Specs ==> s.id in tm.tasks.byId
    ensures old(tm.isRunning) ==>
      && runs == [] && tm.isRunning
      && tm.tasks == Registrations(old(tm.tasks))
      && tm.intervals == old(tm.intervals)
    ensures !old(tm.isRunning) ==>
      var reg := Registrations(old(tm.tasks));
      && tm.isRunning
      && tm.tasks.ids == reg.ids
      && (forall id :: id in reg.byId ==>
            && id in tm.tasks.byId
            && tm.tasks.byId[id] == (if StartsAtOnce(reg.byId[id]) then Begin(reg.byId[id]) else reg.byId[id]))
      && tm.intervals == old(tm.intervals) + EnabledFirst(reg, |reg.ids|)
      && RunIds(runs) == SelectFirst(reg, |reg.ids|, StartsAtOnce)
    ensures !old(tm.isRunning) ==> forall s :: s in Specs ==>
      && s.id in tm.intervals
      && tm.tasks.byId[s.id] == Begin(Registered(s))
      && s.id in RunIds(runs)
  {
    RegisterAll(tm);
    ghost var registered := tm.tasks;
    ghost var intervals := tm.intervals;
    runs := tm.StartAllTasks();
    if !old(tm.isRunning) {
      SpecsStarted(registered, tm.tasks, intervals, tm.intervals, runs);
    }
  }

  /** What `startAllTasks` does to a record holding the three fresh registrations. */
  lemma SpecsStarted(t: TaskTable, after: TaskTable, before: set<string>, intervals: set<string>, runs: seq<Run>)
    requires t.Valid()
    requires forall s :: s in Specs ==> s.id in t.byId && t.byId[s.id] == Registered(s)
    requires intervals == before + EnabledFirst(t, |t.ids|)
    requires forall id :: id in t.byId ==>
      && id in after.byId
      && after.byId[id] == (if StartsAtOnce(t.byId[id]) then Begin(t.byId[id]) else t.byId[id])
    requires RunIds(runs) == SelectFirst(t, |t.ids|, StartsAtOnce)
    ensures forall s :: s in Specs ==>
      && s.id in intervals
      && s.id in after.byId && after.byId[s.id] == Begin(Registered(s))
      && s.id in RunIds(runs)
  {
    VisitCollectsSpecs(t);
  }
}
