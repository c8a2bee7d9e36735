/** The system tasks of app/lib/modules/llm/android/tasks/systemTasks.ts: four tasks
    registered with the Android registry, which is then started through the
    background service, and the control flow of their handlers. The three tasks it
    shares with app/lib/tasks/systemTasks.ts have the same registrations. Every
    handler rethrows what fails inside it, so its outcome is what the registry
    settles the run with. The storage quota functions it calls are those of
    `SecureQuotas`; `storage.sync` and the network state are given to the handler. */
module AndroidSystemTasks {
  import opened Common
  import opened TaskModel
  import BackgroundTasks
  import SystemTasks
  import SecureQuotas
  import QuotaRules

  const NetworkSync := TaskSpec("network-sync", "Network Sync", "Syncs data when network is available", 15 * 60 * 1000, true)

  /** The registrations, in the order they are made. */
  const Specs := [SystemTasks.DataCleanup, SystemTasks.StorageOptimization, NetworkSync, SystemTasks.BackupReminder]

  class AndroidStores {
    var logs: seq<string>
    /** How many times `storage.sync` was called. */
    var syncCalls: nat

    constructor (logs: seq<string>)
      ensures this.logs == logs && syncCalls == 0
    {
      this.logs := logs;
      syncCalls := 0;
    }

    /** The data-cleanup handler: the log trim, then `cleanupStorage`, whose failure
        is rethrown; the logs are trimmed whether or not the cleanup fails. */
    method DataCleanupHandler(q: SecureQuotas.QuotaStore, keys: seq<string>, now: int, stampOf: string -> SecureQuotas.Stamp)
      returns (r: Outcome)
      modifies this`logs, q
      ensures |old(logs)| > SystemTasks.KeptLogs ==> logs == old(logs)[|old(logs)| - SystemTasks.KeptLogs..]
      ensures |old(logs)| <= SystemTasks.KeptLogs ==> logs == old(logs)
      ensures var removed := SecureQuotas.Collect(keys, old(q.items), now, stampOf);
        && (removed.Err? ==> r == Fail(removed.error) && q.items == old(q.items))
        && (removed.Ok? ==> r == Pass && q.items == old(q.items) - set k | k in removed.value)
    {
      if |logs| > SystemTasks.KeptLogs {
        logs := logs[|logs| - SystemTasks.KeptLogs..];
      }
      var removed := q.CleanupStorage(keys, now, stampOf);
      r := if removed.Err? then Fail(removed.error) else Pass;
    }

    /** The network-sync handler: `storage.sync` is called only when connected, and an
        offline run completes as a success. */
    method NetworkSyncHandler(connected: Result<bool>, sync: Outcome) returns (r: Outcome)
      modifies this`syncCalls
      ensures connected.Err? ==> r == Fail(connected.error) && syncCalls == old(syncCalls)
      ensures connected == Ok(false) ==> r == Pass && syncCalls == old(syncCalls)
      ensures connected == Ok(true) ==> r == sync && syncCalls == old(syncCalls) + 1
    {
      if connected.Err? {
        return Fail(connected.error);
      }
      r := Pass;
      if connected.value {
        syncCalls := syncCalls + 1;
        r := sync;
      }
    }
  }

  /** The storage-optimization handler: the quota check, a warning when it is not
      within limits, and then the cleanup in every case; the outcome and the store
      are those of the cleanup alone. */
  method StorageOptimizationHandler(q: SecureQuotas.QuotaStore, keys: seq<string>, now: int, stampOf: string -> SecureQuotas.Stamp)
    returns (r: Outcome, warned: bool)
    modifies q
    ensures warned <==> !QuotaRules.Check(SecureQuotas.UsageStats.StatsOf(keys, old(q.items))).withinLimits
    ensures var removed := SecureQuotas.Collect(keys, old(q.items), now, stampOf);
      && (removed.Err? ==> r == Fail(removed.error) && q.items == old(q.items))
      && (removed.Ok? ==> r == Pass && q.items == old(q.items) - set k | k in removed.value)
  {
    var report, stats := q.CheckStorageQuotas(keys);
    warned := !report.withinLimits;
    var removed := q.CleanupStorage(keys, now, stampOf);
    r := if removed.Err? then Fail(removed.error) else Pass;
  }

  /** The backup-reminder handler: a failed read of `lastBackupDate` is rethrown;
      otherwise the reminder fires on the same strict seven-day test as the browser
      task. */
  method BackupReminderHandler(lastBackup: Result<Option<int>>, now: int) returns (r: Outcome, reminded: bool)
    ensures lastBackup.Err? ==> r == Fail(lastBackup.error) && !reminded
    ensures lastBackup.Ok? ==> r == Pass && (reminded <==> SystemTasks.ReminderDue(lastBackup.value, now))
  {
    if lastBackup.Err? {
      return Fail(lastBackup.error), false;
    }
    reminded := SystemTasks.ReminderDue(lastBackup.value, now);
    r := Pass;
  }

  const SpecIds := {SystemTasks.DataCleanup.id, SystemTasks.StorageOptimization.id, NetworkSync.id, SystemTasks.BackupReminder.id}

  /** The task record after the four registrations: each spec's entry is its fresh
      registration, every other entry is kept, and the existing keys keep their order
      with any new spec ids after them. */
  function Registrations(t: TaskTable): (r: TaskTable)
    ensures t.Valid() ==> r.Valid()
    ensures forall s :: s in Specs ==> s.id in r.byId && r.byId[s.id] == Registered(s)
    ensures forall id :: id !in SpecIds ==> (id in r.byId <==> id in t.byId)
    ensures forall id :: id in t.byId && id !in SpecIds ==> r.byId[id] == t.byId[id]
    ensures t.ids <= r.ids
  {
    var r := t.Put(SystemTasks.DataCleanup.id, Registered(SystemTasks.DataCleanup))
      .Put(SystemTasks.StorageOptimization.id, Registered(SystemTasks.StorageOptimization))
      .Put(NetworkSync.id, Registered(NetworkSync))
      .Put(SystemTasks.BackupReminder.id, Registered(SystemTasks.BackupReminder));
    SpecsRegistered(t.byId, r.byId);
    r
  }

  /** The four registrations, in order. */
  method RegisterAll(tm: BackgroundTasks.TaskManager)
    requires tm.Valid()
    modifies tm`tasks
    ensures tm.Valid()
    ensures tm.tasks == Registrations(old(tm.tasks))
  {
    tm.RegisterTask(SystemTasks.DataCleanup);
    tm.RegisterTask(SystemTasks.StorageOptimization);
    tm.RegisterTask(NetworkSync);
    tm.RegisterTask(SystemTasks.BackupReminder);
  }

  lemma SpecsRegistered(before: map<string, Task>, after: map<string, Task>)
    requires after == before[SystemTasks.DataCleanup.id := Registered(SystemTasks.DataCleanup)]
      [SystemTasks.StorageOptimization.id := Registered(SystemTasks.StorageOptimization)]
      [NetworkSync.id := Registered(NetworkSync)]
      [SystemTasks.BackupReminder.id := Registered(SystemTasks.BackupReminder)]
    ensures forall s :: s in Specs ==> s.id in after && after[s.id] == Registered(s)
  {
    assert Specs[0].id == "data-cleanup" && Specs[1].id == "storage-optimization";
    assert Specs[2].id == "network-sync" && Specs[3].id == "backup-reminder";
    assert forall i, j :: 0 <= i < j < 4 ==> Specs[i].id != Specs[j].id;
  }

  /** `initializeSystemTasks`: the four registrations, then `startAllTasks`, whose
      failure is only logged. No task is started and no interval set here; the
      background service runs the tasks when they are due. */
  method InitializeSystemTasks(tm: BackgroundTasks.TaskManager, serviceStart: Outcome)
    requires tm.Valid()
    modifies tm
    ensures tm.Valid()
    ensures tm.tasks == Registrations(old(tm.tasks))
    ensures forall s :: s in Specs ==> s.id in tm.tasks.byId && tm.tasks.byId[s.id] == Registered(s)
    ensures tm.isRunning <==> old(tm.isRunning) || serviceStart.Pass?
    ensures tm.intervals == old(tm.intervals)
  {
    RegisterAll(tm);
    var started := tm.StartAllTasks(serviceStart);
  }

  /** `initializeSystemTasks` as written: the registry's `registerTask` throws from
      its `logger.debug` call once its write is made (see
      `BackgroundTasks.LoggerMissing`), and the first registration is not guarded, so
      only data-cleanup is registered, the error propagates to the caller and
      `startAllTasks` is never called. The result is the table and the error. */
  function InitializeAsWritten(t: TaskTable): (r: (TaskTable, Outcome))
    ensures r.0.byId == t.byId[SystemTasks.DataCleanup.id := Registered(SystemTasks.DataCleanup)]
    ensures r.1 == Fail(BackgroundTasks.LoggerMissing)
  {
    (t.Put(SystemTasks.DataCleanup.id, Registered(SystemTasks.DataCleanup)), Fail(BackgroundTasks.LoggerMissing))
  }

  /** As written, the three registrations after the first never happen: a spec that
      was not registered before is still missing afterwards, where the intended
      `InitializeSystemTasks` registers all four. */
  lemma InitializeAsWrittenRegistersOne(t: TaskTable)
    requires t.Valid()
    ensures var after := InitializeAsWritten(t).0;
      && after.Valid()
      && SystemTasks.DataCleanup.id in after.byId
      && forall i :: 1 <= i < |Specs| && Specs[i].id !in t.byId ==> Specs[i].id !in after.byId
  {
    assert Specs[0].id == "data-cleanup" && Specs[1].id == "storage-optimization";
    assert Specs[2].id == "network-sync" && Specs[3].id == "backup-reminder";
  }
}
