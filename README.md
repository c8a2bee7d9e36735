# boltapp3 core, modelled in Dafny

This project models the managers and rules at the core of the boltapp3 Android chat
client, each as the TypeScript source writes it:

- the cloud sync cycle and its conflict resolution;
- the two background-task registries and both system-task tables;
- the layered key-value store: compression, encryption, TTL envelopes, chunking and statistics;
- both storage-quota files;
- the analytics event queue;
- the lazy-loading priority queue;
- the automatic backup decision and file retention;
- the theme registry and its validator;
- the model list;
- the secure API-key store;
- the route cache;
- the performance monitor;
- the small rules inside the message renderer, the offline indicator, the chat screen,
  the Groq provider and the code executor.

Each module follows one source file. Where the source changes state in place, the module
has a `class` whose fields are that state (`taskStore`, `intervals`, `eventQueue`,
`routeCache`, …). Its methods carry `modifies` clauses, and their loops become `while`
loops with invariants. Every method is proved against a specification function, and the
properties the source promises are proved about those functions as lemmas.

The outside world enters as parameters:

- AsyncStorage is a `map<string, string>` (or the field that holds the key in question);
- network state, `Date.now()`, random ids and sampling are given to each operation;
- the outcome of every handler, native call, fetch, export and unlink is given to each operation;
- encryption, compression, JSON and the TTL envelope are functions passed in a `Codec`.
  The only things the properties assume about them are their inverse laws.

Timers are fields that record which interval is set and with what period.
An `async` operation that awaits another operation is split into a begin step and a
completion step, so that single-flight guards and stale snapshots can be stated.

## Model

| member | source | states |
|---|---|---|
| Analytics.MergeConfig | app/lib/modules/llm/android/monitoring/AnalyticsManager.ts:169 | each configuration field given in the update replaces the old one; every other field keeps its value |
| Analytics.EnqueueBounded | app/lib/modules/llm/android/monitoring/AnalyticsManager.ts:84-89 | with a positive cap, the tracked event is last and the queue holds at most `maxQueueSize` events; what overflowed is the oldest, so the queue is a suffix of the old queue plus the event |
| Analytics.ZeroCapKeepsAll | app/lib/modules/llm/android/monitoring/AnalyticsManager.ts:87-88 | a `maxQueueSize` of 0 keeps the whole queue, because `slice(-0)` is `slice(0)` |
| Analytics.BatchLength | app/lib/modules/llm/android/monitoring/AnalyticsManager.ts:140 | `splice(0, batchSize)` takes `min(batchSize, length)` events, and none for a negative size |
| Analytics.FlushQueue | app/lib/modules/llm/android/monitoring/AnalyticsManager.ts:126-156 | the intended flush loses nothing and reorders nothing: the delivered events followed by the remaining queue are the old queue, and a failed send leaves the queue as it was |
| Analytics.FlushAsWrittenLosesBatch | app/lib/modules/llm/android/monitoring/AnalyticsManager.ts:140-155 | as written, a failed send of a non-empty batch delivers nothing, yet the queue is left without the batch, and the `catch` ends with a ReferenceError |
| Analytics.AnalyticsManager.constructor | app/lib/modules/llm/android/monitoring/AnalyticsManager.ts:22-37 | an empty queue, the default configuration and no flush timer |
| Analytics.AnalyticsManager.TrackEvent | app/lib/modules/llm/android/monitoring/AnalyticsManager.ts:69-103 | a sampled-out event changes nothing; otherwise the event is enqueued under the cap and persisted, and a flush is due exactly when the queue has reached `batchSize` |
| Analytics.AnalyticsManager.Flush | app/lib/modules/llm/android/monitoring/AnalyticsManager.ts:126-156 | an empty queue or no connection changes nothing; a successful send removes exactly the first `min(batchSize, length)` events, keeping the rest in order; a failed send restores the batch at the head (the corrected behaviour) |
| Analytics.AnalyticsManager.UpdateConfig | app/lib/modules/llm/android/monitoring/AnalyticsManager.ts:168-175 | the configuration is merged and saved, and the flush timer is restarted with the new period |
| Analytics.AnalyticsManager.ClearQueue | app/lib/modules/llm/android/monitoring/AnalyticsManager.ts:177-181 | the queue is empty and the persisted copy is removed |
| Analytics.AnalyticsManager.Stop | app/lib/modules/llm/android/monitoring/AnalyticsManager.ts:183-188 | no flush timer is left, so a second call changes nothing |
| AutoBackup.MergeConfig | app/lib/backup/AutoBackupManager.ts:63 | each field given in the update replaces the old one; every other field keeps its value |
| AutoBackup.ShouldRunBackup | app/lib/backup/AutoBackupManager.ts:129-157 | a backup runs iff it is due (no `lastBackup`, or `now >= lastBackup + interval` hours), the store holds at most 100 MB and, in wifi-only mode, the device is on wifi; before the due time the answer is "not yet due" whatever else holds |
| AutoBackup.Backups | app/lib/backup/AutoBackupManager.ts:166-167 | exactly the directory entries whose name ends in `.boltbackup` |
| AutoBackup.VictimsAreBackups | app/lib/backup/AutoBackupManager.ts:166-177 | only backup files from the directory are ever deleted, and nothing is deleted when there are at most `retainCount` of them |
| AutoBackup.SplitNewestFirst | app/lib/backup/AutoBackupManager.ts:168-172 | cutting a newest-first list splits it without loss, and nothing in the tail is newer than anything in the head |
| AutoBackup.RetentionKeepsNewest | app/lib/backup/AutoBackupManager.ts:166-178 | with more than `retainCount` backups, the victims are the backups after the `retainCount` newest (by mtime, descending): `length - retainCount` of them, none newer than a backup kept, and the kept files plus the victims are all the backups |
| AutoBackup.AutoBackupManager.constructor | app/lib/backup/AutoBackupManager.ts:18-31 | the default configuration, nothing saved and no timer |
| AutoBackup.AutoBackupManager.PerformBackup | app/lib/backup/AutoBackupManager.ts:105-127 | a backup that is not due at the clock reading taken before the export changes nothing and reports why; a failed export changes nothing; after a successful export `lastBackup` becomes the clock reading taken after it and is saved, and then the retention victims are pruned |
| AutoBackup.AutoBackupManager.StartBackupScheduler | app/lib/backup/AutoBackupManager.ts:85-103 | the interval is set to `interval` hours, and an immediate backup starts iff there was never a backup |
| AutoBackup.AutoBackupManager.UpdateConfig | app/lib/backup/AutoBackupManager.ts:60-83 | the configuration is merged and saved, and any timer is cleared; the scheduler restarts only when the result is enabled |
| AutoBackup.AutoBackupManager.GetConfig | app/lib/backup/AutoBackupManager.ts:185-187 | returns the configuration |
| AutoBackup.AutoBackupManager.Stop | app/lib/backup/AutoBackupManager.ts:189-194 | no timer is left, so a second call changes nothing |
| TaskModel.Registered | app/lib/tasks/TaskManager.ts:45-49 | a registered task is idle and has never run, and it keeps the id, name, description, interval and enabled flag it was given |
| TaskModel.Begin | app/lib/tasks/TaskManager.ts:63-70 | the write made before the handler runs: status `running` and no error; `lastRun` and the enabled flag are kept |
| TaskModel.Settle | app/lib/tasks/TaskManager.ts:76-96 | on success the task is idle with `lastRun = now` and no error; on failure it is `failed` with the message, and `lastRun` keeps its value from before the call |
| TaskModel.Put | app/lib/tasks/TaskManager.ts:43-50 | `{ ...tasks, [id]: t }`: only that key's entry changes, the old keys keep their order as a prefix with at most one new key after them, and a well-formed record stays well-formed |
| TaskModel.Settled | app/lib/tasks/TaskManager.ts:54-96 | the record a settling run writes is the snapshot it read on entry with only its own entry settled, so every other entry goes back to its value at entry |
| TaskModel.TryStart | app/lib/tasks/TaskManager.ts:53-70 | an unknown id or a running task gives no run and no write; otherwise the entry becomes running and the run keeps the record it read |
| TaskModel.UpdateFirstEntries | app/lib/tasks/TaskManager.ts:111-115 | after a visit of the first `n` ids in key order, each selected entry among them holds the written value and every other entry is unchanged; the key order is kept |
| TaskModel.UpdateAllEntries | app/lib/tasks/TaskManager.ts:111-115 | after the whole visit, every selected entry holds the written value and every other entry is unchanged |
| TaskModel.StartAllStep | app/lib/tasks/TaskManager.ts:111-145 | visiting the next id in `startAllTasks` writes that task's entry iff it is enabled, has never run and is not running |
| TaskModel.VisitCollects | app/lib/tasks/TaskManager.ts:111-115 | a visit of all ids selects every id whose task is selected, and collects every enabled id |
| TaskModel.RunIds | app/lib/tasks/TaskManager.ts:53 | the ids of a list of runs, in order |
| TaskRegistry.TaskManager.constructor | app/lib/tasks/TaskManager.ts:21-32 | no tasks, not running, no intervals |
| TaskRegistry.TaskManager.RegisterTask | app/lib/tasks/TaskManager.ts:41-51 | the task is stored idle and never run, replacing any entry with the same id; other entries are unchanged |
| TaskRegistry.TaskManager.StartTask | app/lib/tasks/TaskManager.ts:53-73 | the running-guard: an unknown id or a running task is a no-op; otherwise the task is marked running with no error, and the run keeps the record read on entry |
| TaskRegistry.TaskManager.FinishTask | app/lib/tasks/TaskManager.ts:73-96 | the write made when the handler settles is the entry-time snapshot with only this task settled |
| TaskRegistry.TaskManager.ScheduleTask | app/lib/tasks/TaskManager.ts:129-147 | the task's interval is replaced, and a task that never ran is started at once |
| TaskRegistry.TaskManager.StartAllTasks | app/lib/tasks/TaskManager.ts:102-118 | a no-op when already running; otherwise `isRunning` is raised, every enabled task gets an interval, and exactly the enabled, never-run, not-running tasks are started, in key order |
| TaskRegistry.TaskManager.ScheduleEach | app/lib/tasks/TaskManager.ts:107-115 | the `forEach` over the tasks read before the visit: each entry written is that task marked running, the intervals grow by the enabled ids, and the runs are the selected ids in key order |
| TaskRegistry.TaskManager.StopAllTasks | app/lib/tasks/TaskManager.ts:120-127 | every interval is cleared and `isRunning` is lowered; the registrations are untouched |
| TaskRegistry.TaskManager.EnableTask | app/lib/tasks/TaskManager.ts:149-174 | an unknown id is a no-op; otherwise the flag is stored, enabling reschedules the task (starting it if it never ran) even when the manager is stopped, and disabling removes only that id's interval |
| TaskRegistry.StaleSnapshotTrace | app/lib/tasks/TaskManager.ts:54-84 | when two runs overlap, the first run's write-back resets the second task to idle while its handler is still running, so a second `startTask` of it passes the running-guard |
| BackgroundTasks.LastRunZeroIsDue | app/lib/modules/llm/android/tasks/TaskManager.ts:209-210 | a `lastRun` of 0 is falsy, so that task is due at any time |
| BackgroundTasks.RecentRunNotDue | app/lib/modules/llm/android/tasks/TaskManager.ts:209-210 | a task that ran less than one interval ago is not due |
| BackgroundTasks.DueLater | app/lib/modules/llm/android/tasks/TaskManager.ts:209-210 | a task due at one clock reading is due at every later reading |
| BackgroundTasks.PassStep | app/lib/modules/llm/android/tasks/TaskManager.ts:207-213 | one step of a pass: a task that is enabled, due at the clock reading of its own test and not running is started and settled at the clock reading taken after its handler, which takes the record from `i` visited ids to `i + 1`; any other task leaves the record as it was |
| BackgroundTasks.TaskManager.constructor | app/lib/modules/llm/android/tasks/TaskManager.ts:22-48 | no tasks, not running, no intervals |
| BackgroundTasks.TaskManager.StartAllTasks | app/lib/modules/llm/android/tasks/TaskManager.ts:57-71 | a no-op when already running; otherwise `isRunning` becomes true iff the background service started, a failure is rethrown, and no per-task interval is created |
| BackgroundTasks.TaskManager.StopAllTasks | app/lib/modules/llm/android/tasks/TaskManager.ts:73-88 | once the service stopped, every interval is cleared and `isRunning` is lowered; a failure to stop is rethrown and changes neither |
| BackgroundTasks.TaskManager.RegisterTask | app/lib/modules/llm/android/tasks/TaskManager.ts:90-101 | the task is stored idle and never run, replacing any entry with the same id |
| BackgroundTasks.TaskManager.StartTask | app/lib/modules/llm/android/tasks/TaskManager.ts:103-123 | the same running-guard and running write as the browser registry |
| BackgroundTasks.TaskManager.FinishTask | app/lib/modules/llm/android/tasks/TaskManager.ts:125-149 | the write made when the handler settles is the entry-time snapshot with only this task settled; `lastRun` is set only on success |
| BackgroundTasks.TaskManager.ScheduleTask | app/lib/modules/llm/android/tasks/TaskManager.ts:181-199 | the task's interval is replaced, and a task that never ran is started at once |
| BackgroundTasks.TaskManager.EnableTask | app/lib/modules/llm/android/tasks/TaskManager.ts:152-179 | an unknown id is a no-op; otherwise the flag is stored, enabling reschedules the task, and disabling deletes only that id's interval |
| BackgroundTasks.TaskManager.BackgroundPass | app/lib/modules/llm/android/tasks/TaskManager.ts:201-214 | one pass over the tasks read at its start: a task runs iff it is enabled, due at the clock reading taken for its own test (`lastRun` null or 0, or that reading minus `lastRun` at least `interval`) and not running; each one that ran holds the settled state of its old entry, with a success recorded at the clock reading taken after its handler; the others are unchanged, and the tasks ran one after another in key order |
| BackgroundTasks.TaskManager.PassVisit | app/lib/modules/llm/android/tasks/TaskManager.ts:208-212 | the loop body of a pass: the task is tested against the clock reading taken for it, started and awaited iff it runs in this pass, and settled at the reading taken after its handler |
| BackgroundTasks.SettleAsWritten | app/lib/modules/llm/android/tasks/TaskManager.ts:125-148 | as written, with `logger` undeclared: a settled run always leaves its entry `failed` with its old `lastRun`, carrying the handler's error or, for a handler that resolved, the ReferenceError of the log call; `startTask` always rejects |
| BackgroundTasks.SuccessEndsFailedAsWritten | app/lib/modules/llm/android/tasks/TaskManager.ts:125-148 | a handler that resolves leaves its task `failed` as written, where the intended write leaves it idle with `lastRun = now` |
| BackgroundTasks.PassAsWrittenStopsEarly | app/lib/modules/llm/android/tasks/TaskManager.ts:201-222 | as written a pass runs at most the first due task, since the loop's catch throws from `logger.error`; with two or more due tasks it runs fewer than the intended pass |
| BackgroundTasks.StartAllAsWritten | app/lib/modules/llm/android/tasks/TaskManager.ts:57-71 | as written: a no-op when running; otherwise `isRunning` follows the service start and the call always rejects |
| BackgroundTasks.StopAllAsWritten | app/lib/modules/llm/android/tasks/TaskManager.ts:73-88 | as written: intervals are cleared and `isRunning` lowered iff the service stopped, and the call always rejects |
| BackgroundTasks.StartAllAsWrittenRejects | app/lib/modules/llm/android/tasks/TaskManager.ts:57-71 | as written, a service start that resolves still makes `startAllTasks` reject |
| SystemTasks.SystemStores.constructor | app/lib/tasks/systemTasks.ts:19-26 | the log store and the workbench files as given, and an empty system log |
| SystemTasks.SystemStores.DataCleanupHandler | app/lib/tasks/systemTasks.ts:17-31 | with more than 1000 logs the last 1000 are kept in order, otherwise the logs are untouched; every workbench file whose path contains `/tmp/` is set to `undefined`, and every other file is unchanged |
| SystemTasks.SystemStores.ClearTempFiles | app/lib/tasks/systemTasks.ts:26-30 | the loop over the temporary files: the keys are kept, and exactly the `/tmp/` paths are cleared |
| SystemTasks.SystemStores.BackupReminderHandler | app/lib/tasks/systemTasks.ts:53-61 | the reminder is logged iff there is no `lastBackupDate` (or it is 0) or `now - lastBackupDate` is strictly more than 7 days |
| SystemTasks.Registrations | app/lib/tasks/systemTasks.ts:11-62 | after the three registrations each system task holds its fresh registration (enabled, idle, never run), every other task is kept as it was, and the existing keys keep their order with the new ids after them |
| SystemTasks.RegisterAll | app/lib/tasks/systemTasks.ts:11-62 | the record becomes exactly `Registrations` of the old one: the three tasks `data-cleanup` (24 h), `storage-optimization` (12 h) and `backup-reminder` (7 days) are registered, and every other registration and the key order survive |
| SystemTasks.SpecsRegistered | app/lib/tasks/systemTasks.ts:11-62 | the three registrations have distinct ids, so each one reads back as registered |
| SystemTasks.VisitCollectsSpecs | app/lib/tasks/systemTasks.ts:65 | `startAllTasks` over a record holding the three fresh registrations gives each of them an interval and starts each at once |
| SystemTasks.InitializeSystemTasks | app/lib/tasks/systemTasks.ts:7-66 | `startAllTasks` comes after all three registrations: on a running registry the record is the registered one and the intervals and `isRunning` are unchanged; on a stopped one every enabled, never-run task of the registered record (all three system tasks among them) gets an interval and is started at once, the others are kept, and the runs are those tasks in key order |
| SystemTasks.SpecsStarted | app/lib/tasks/systemTasks.ts:65 | after `startAllTasks` each of the three tasks has an interval, is marked running and has a run |
| AndroidSystemTasks.AndroidStores.constructor | app/lib/modules/llm/android/tasks/systemTasks.ts:25 | the log store as given, and no sync call made |
| AndroidSystemTasks.AndroidStores.DataCleanupHandler | app/lib/modules/llm/android/tasks/systemTasks.ts:22-38 | the last 1000 logs are kept when there are more, then `cleanupStorage` runs; its error is rethrown with the store unchanged, and on success exactly the old entries it collects are removed |
| AndroidSystemTasks.AndroidStores.NetworkSyncHandler | app/lib/modules/llm/android/tasks/systemTasks.ts:75-87 | `storage.sync` is called iff the device is connected; an offline run completes as a success, and a failure is rethrown |
| AndroidSystemTasks.StorageOptimizationHandler | app/lib/modules/llm/android/tasks/systemTasks.ts:48-65 | a warning is raised iff the quota check is not within limits, and the cleanup runs in every case; the outcome and the store are those of the cleanup |
| AndroidSystemTasks.BackupReminderHandler | app/lib/modules/llm/android/tasks/systemTasks.ts:97-108 | a failed read is rethrown; otherwise the reminder fires on the same strict seven-day test as the browser task |
| AndroidSystemTasks.Registrations | app/lib/modules/llm/android/tasks/systemTasks.ts:16-109 | after the four registrations each system task holds its fresh registration, every other task is kept as it was, and the existing keys keep their order with the new ids after them |
| AndroidSystemTasks.RegisterAll | app/lib/modules/llm/android/tasks/systemTasks.ts:16-109 | the record becomes exactly `Registrations` of the old one: `data-cleanup` (24 h), `storage-optimization` (12 h), `network-sync` (15 min) and `backup-reminder` (7 days) are registered, and every other registration and the key order survive |
| AndroidSystemTasks.SpecsRegistered | app/lib/modules/llm/android/tasks/systemTasks.ts:16-109 | the four registrations have distinct ids, so each one reads back as registered |
| AndroidSystemTasks.InitializeSystemTasks | app/lib/modules/llm/android/tasks/systemTasks.ts:10-115 | the record becomes exactly `Registrations` of the old one, and then the registry runs iff it was running or the service started (a failure is only logged); no interval is created |
| AndroidSystemTasks.InitializeAsWritten | app/lib/modules/llm/android/tasks/systemTasks.ts:12-27 | as written: only `data-cleanup` is registered before `registerTask` throws from its log call, and the error propagates to the caller |
| AndroidSystemTasks.InitializeAsWrittenRegistersOne | app/lib/modules/llm/android/tasks/systemTasks.ts:12-115 | as written, the three later tasks stay unregistered when they were not registered before, and `startAllTasks` is never called |
| QuotaRules.Warnings | app/lib/modules/llm/android/secure/StorageQuotas.ts:29-39 | one warning per limit, in the order total size, message count, attachment size; each warning is present iff its limit is strictly exceeded, and it carries the figure that exceeded it |
| QuotaRules.Check | app/lib/modules/llm/android/secure/StorageQuotas.ts:29-45 | the report holds exactly those warnings, and `withinLimits` holds iff there is no warning, iff no limit is exceeded (a value equal to a limit is within it) |
| SecureQuotas.CollectCorrect | app/lib/modules/llm/android/secure/StorageQuotas.ts:97-107 | the collection fails iff some present `message_`/`attachment_` record does not parse; when it succeeds it holds exactly the tracked, present records dated more than 30 days before `now` |
| SecureQuotas.CollectStopsAtError | app/lib/modules/llm/android/secure/StorageQuotas.ts:101 | once a record fails to parse, the keys after it do not change the outcome |
| SecureQuotas.QuotaStore.constructor | app/lib/modules/llm/android/secure/StorageQuotas.ts:2 | the store holds the given items |
| SecureQuotas.QuotaStore.GetStorageStats | app/lib/modules/llm/android/secure/StorageQuotas.ts:52-86 | the stats are the usage tally of the store's present values over the listed keys |
| SecureQuotas.QuotaStore.CheckStorageQuotas | app/lib/modules/llm/android/secure/StorageQuotas.ts:20-50 | the stats returned are the tally and the report is their classification: within limits iff total size, message count and attachment size are each at most their limit |
| SecureQuotas.QuotaStore.CleanupStorage | app/lib/modules/llm/android/secure/StorageQuotas.ts:88-118 | the removed keys are the collection; a parse error or an empty collection leaves the store unchanged, and otherwise exactly the collected keys are removed in one step |
| SecureQuotas.CleanupKeeps | app/lib/modules/llm/android/secure/StorageQuotas.ts:97-113 | after a successful cleanup a key remains iff it was present and is not a stale tracked record, and every remaining value is unchanged |
| SecureQuotas.ThirtyDaysIsKept | app/lib/modules/llm/android/secure/StorageQuotas.ts:102 | a record exactly 30 days old is not removed: the age test is strict |
| StoreQuotas.FreshAttachments | app/utils/storageQuotas.ts:48-55 | an attachment is kept iff it has a timestamp less than 30 days before `now`, and kept values are unchanged |
| StoreQuotas.QuotaStore.constructor | app/utils/storageQuotas.ts:1 | the store holds the given `messages` and `attachments` entries |
| StoreQuotas.QuotaStore.CleanupStorage | app/utils/storageQuotas.ts:35-58 | with more than 500 messages the last 500 are kept in order, otherwise `messages` is untouched (a missing entry stays missing); `attachments` is always written back holding only the fresh ones |
| StoreQuotas.CleanupIdempotent | app/utils/storageQuotas.ts:35-58 | for a fixed `now`, cleaning twice leaves the store as cleaning once |
| UsageStats.Utf8Len | app/lib/modules/llm/android/secure/StorageQuotas.ts:65 | one code point takes 1 to 4 bytes, and 1 exactly for ASCII |
| UsageStats.Utf8Size | app/lib/modules/llm/android/secure/StorageQuotas.ts:65 | a string takes between one and four bytes per character |
| UsageStats.Utf8SizeAppend | app/lib/modules/llm/android/secure/StorageQuotas.ts:65-66 | the byte size of a concatenation is the sum of the byte sizes |
| UsageStats.ComputeStats | app/lib/modules/llm/android/secure/StorageQuotas.ts:54-74 | the accumulator loop computes the tally: the total of present values, the count of present `message_` keys, and the size of present `attachment_` keys that are not message keys |
| UsageStats.PrefixesDisjoint | app/lib/modules/llm/android/secure/StorageQuotas.ts:68-71 | no key starts with both `message_` and `attachment_`, so the `else if` loses nothing |
| UsageStats.StatsBounds | app/lib/modules/llm/android/secure/StorageQuotas.ts:62-74 | the attachment size never exceeds the total size, and the message count never exceeds the number of keys |
| UsageStats.AbsentKeyAddsNothing | app/lib/modules/llm/android/secure/StorageQuotas.ts:64 | a key whose value is missing or empty changes none of the three figures |
| Storage.Chunks | app/lib/storage/StorageManager.ts:137-144 | every chunk is non-empty and at most `CHUNK_SIZE` characters, and there are exactly `ceil(len / CHUNK_SIZE)` of them |
| Storage.ConcatChunks | app/lib/storage/StorageManager.ts:137-170 | joining the chunks in index order gives the payload back |
| Storage.ChunkCountOfHeader | app/lib/storage/StorageManager.ts:154-163 | the header `chunked:n` starts with the chunk prefix and parses back to `n` |
| Storage.ChunkKeyInjective | app/lib/storage/StorageManager.ts:149-166 | two chunk keys of the same key are equal only for the same index |
| Storage.ChunkKeyDistinct | app/lib/storage/StorageManager.ts:149-194 | a chunk key is never the header key itself nor `storage_stats` |
| Storage.PutChunksEntries | app/lib/storage/StorageManager.ts:147-151 | after writing the first `n` chunks each chunk key holds its chunk, and every other key is unchanged |
| Storage.JoinChunksOf | app/lib/storage/StorageManager.ts:163-170 | over a store holding the chunks, joining the first `n` gives the concatenation of those chunks |
| Storage.ChunkedRoundTrip | app/lib/storage/StorageManager.ts:136-171 | after `setChunked` the key holds the header for `n` chunks, chunk `i` is at `key_chunk_i`, and reading through the header returns the payload |
| Storage.EncodePayload | app/lib/storage/StorageManager.ts:74-93 | the write pipeline in its order: stringify, compress when asked or over 10 KB, encrypt when asked, wrap with `now + ttl` when a TTL is given; the first collaborator failure is the result |
| Storage.SliceChunks | app/lib/storage/StorageManager.ts:137-144 | the slicing loop yields exactly the consecutive chunks |
| Storage.StorageManager.constructor | app/lib/storage/StorageManager.ts:21-23 | the manager starts over the given store |
| Storage.StorageManager.Get | app/lib/storage/StorageManager.ts:32-70 | a missing or empty key reads null; a chunk header is joined first; an envelope past its expiry is removed and reads null; otherwise decrypt and decompress follow the caller's flags only, and any failure reads null |
| Storage.StorageManager.Set | app/lib/storage/StorageManager.ts:72-107 | a failing collaborator is rethrown with the store unchanged; otherwise the payload is stored chunked when over `CHUNK_SIZE` bytes and whole otherwise, and the stats record is refreshed |
| Storage.StorageManager.Remove | app/lib/storage/StorageManager.ts:109-124 | the key is removed, together with its `n` chunk keys when it holds a chunk header |
| Storage.StorageManager.SetChunked | app/lib/storage/StorageManager.ts:136-155 | every chunk is written under its chunk key, then the header under the key |
| Storage.StorageManager.GetChunked | app/lib/storage/StorageManager.ts:157-171 | without a chunk header the result is an error; otherwise it is the join of the chunks the header names, a missing chunk joining as empty |
| Storage.StorageManager.UpdateStorageStats | app/lib/storage/StorageManager.ts:173-199 | `storage_stats` is set to the rendering of the usage tally, and nothing else changes |
| Storage.FetchIgnoresStats | app/lib/storage/StorageManager.ts:194 | writing the stats record does not change what any other key reads, chunked or not |
| Storage.JoinChunksIgnores | app/lib/storage/StorageManager.ts:164-194 | writing the stats record does not change a join of chunks |
| Storage.FetchPlaced | app/lib/storage/StorageManager.ts:34-100 | a non-empty payload is fetched back unchanged whether it was stored whole or chunked |
| Storage.SetThenGet | app/lib/storage/StorageManager.ts:32-107 | with a lawful codec, `set` followed by `get` with the same flags before expiry returns the value, provided compression was requested whenever the size rule applies |
| Storage.OpenEncoded | app/lib/storage/StorageManager.ts:45-93 | a payload made by the write pipeline opens, before its expiry, to the original value |
| Storage.MarkedNonEmpty | app/lib/storage/StorageManager.ts:36-46 | a value containing the `"expires":` marker is not empty, so it is not taken for a missing key |
| Storage.ExpiredReadRemoves | app/lib/storage/StorageManager.ts:45-51 | a TTL'd value read after its expiry reads null, and the read removes it (with its chunks) |
| Storage.SizeCompressionNotUndone | app/lib/storage/StorageManager.ts:61-79 | a large value compressed only because of its size reads back, without the `compress` flag, as the parse of the compressed text, not the value |
| Storage.MarkerWithoutTtlReadsNull | app/lib/storage/StorageManager.ts:46-68 | a stored value without TTL that contains `"expires":` but does not unwrap reads null and leaves the store alone |
| Storage.RemovedKeys | app/lib/storage/StorageManager.ts:113-118 | a key survives `remove` iff it is not the key and not one of the key's chunk keys |
| CloudSync.ById | app/lib/modules/llm/android/cloud/CloudSyncManager.ts:169-170 | the map built from a change list has exactly the list's ids as keys, and each entry is a record of the list carrying that id |
| CloudSync.ByIdKeepsLast | app/lib/modules/llm/android/cloud/CloudSyncManager.ts:169-170 | when an id occurs several times in one list, the map keeps its last record |
| CloudSync.Dedupe | app/lib/modules/llm/android/cloud/CloudSyncManager.ts:173 | the id set has no duplicates and holds exactly the ids given |
| CloudSync.Ids | app/lib/modules/llm/android/cloud/CloudSyncManager.ts:173 | the ids of a list, position by position |
| CloudSync.ResolveIdsSound | app/lib/modules/llm/android/cloud/CloudSyncManager.ts:175-203 | every record the loop emits is its side's record for a visited id, in the list the routing names |
| CloudSync.ResolveIdsComplete | app/lib/modules/llm/android/cloud/CloudSyncManager.ts:175-203 | every visited id lands in one of the two lists |
| CloudSync.ResolveIdsNoDup | app/lib/modules/llm/android/cloud/CloudSyncManager.ts:173-203 | visiting distinct ids gives lists without repeated ids |
| CloudSync.ResolveConflictsCorrect | app/lib/modules/llm/android/cloud/CloudSyncManager.ts:161-206 | the ids of the two lists partition the union of local and remote ids, neither list repeats an id, each record is the last record of its side for that id, a local-only id is uploaded, a remote-only id downloaded, and an id on both sides is uploaded iff the policy is `local`, or `newest` with a strictly later local timestamp (a tie downloads) |
| CloudSync.RoutedIds | app/lib/modules/llm/android/cloud/CloudSyncManager.ts:179-201 | an uploaded id is local and routed up; a downloaded id is remote and routed down |
| CloudSync.RouteOnBothSides | app/lib/modules/llm/android/cloud/CloudSyncManager.ts:187-201 | for an id on both sides, upload iff the policy is `local`, or `newest` with a strictly greater local timestamp |
| CloudSync.ResolutionRoutes | app/lib/modules/llm/android/cloud/CloudSyncManager.ts:169-205 | each record comes from its side and is routed to its list, every id of either side is routed, and neither list repeats an id |
| CloudSync.CloudSyncManager.constructor | app/lib/modules/llm/android/cloud/CloudSyncManager.ts:31-48 | not syncing, zero stats, the default config (disabled, 15 min, wifi only, `newest`, 3 retries, 5 s) and no timer |
| CloudSync.CloudSyncManager.BeginSync | app/lib/modules/llm/android/cloud/CloudSyncManager.ts:101-108 | a call while a cycle is in flight starts nothing and changes nothing; otherwise it raises `syncInProgress` |
| CloudSync.CloudSyncManager.CompleteSync | app/lib/modules/llm/android/cloud/CloudSyncManager.ts:100-158 | the flag is cleared on every exit; the cycle is skipped, with stats unchanged, exactly when the network state was read and does not allow syncing, and a rejected `NetInfo.fetch` is a failure; success (every needed reply arrived) sets `lastSync := now`, adds one success and adds the reported bytes only for non-empty lists, with `applyChanges` called on exactly the download list iff it is non-empty; failure adds one failure, keeps `lastSync`, schedules a retry iff the cumulative failure count is below `maxRetries`, counts no bytes when it happened before resolution, and otherwise keeps exactly the bytes of the upload and download that completed before it, with `applyChanges` called iff the download completed |
| CloudSync.CloudSyncManager.UpdateConfig | app/lib/modules/llm/android/cloud/CloudSyncManager.ts:216-229 | the update is merged field by field; when enabled the interval is set and an initial sync begins (unless one is in flight), otherwise the timer is cleared |
| CloudSync.CloudSyncManager.Stop | app/lib/modules/llm/android/cloud/CloudSyncManager.ts:235-240 | the timer is cleared, and nothing else changes, so a second call is a no-op |
| CloudSync.CloudSyncManager.GetStats | app/lib/modules/llm/android/cloud/CloudSyncManager.ts:231-233 | returns the current stats as a value |
| CodeExecution.GetSupportedLanguages | app/lib/modules/llm/android/features/CodeExecutor.ts:105-111 | the list has no duplicates and holds exactly the languages `isLanguageSupported` accepts |
| CodeExecution.GetFileExtension | app/lib/modules/llm/android/features/CodeExecutor.ts:96-103 | javascript gives `js`, typescript `ts`, python `py`, and any other language is its own extension |
| CodeExecution.ExtensionsDistinct | app/lib/modules/llm/android/features/CodeExecutor.ts:96-103 | two supported languages get different extensions, and no extension is itself a language name |
| CodeExecution.OrDefault | app/lib/modules/llm/android/features/CodeExecutor.ts:79-80 | a setting read with `||`: a given non-zero value is kept, an absent value or 0 gives the default |
| CodeExecution.Request | app/lib/modules/llm/android/features/CodeExecutor.ts:76-83 | the native request carries the path and language, the timeout and memory limit through `||` defaults, and the given args and env or empty ones |
| CodeExecution.EmptyConfigDefaults | app/lib/modules/llm/android/features/CodeExecutor.ts:79-82 | with nothing configured the request uses 5000 ms, 100 MB, no args and no env |
| CodeExecution.FilePath | app/lib/modules/llm/android/features/CodeExecutor.ts:68-70 | the temporary file lies directly under the code directory and ends with the language's extension |
| CodeExecution.CodeExecutor.constructor | app/lib/modules/llm/android/features/CodeExecutor.ts:25 | the code directory, whether it exists, and the files as given |
| CodeExecution.CodeExecutor.Initialize | app/lib/modules/llm/android/features/CodeExecutor.ts:42-55 | the directory is made only when `exists` reports it missing; a failure of either call is rethrown |
| CodeExecution.CodeExecutor.ExecuteCode | app/lib/modules/llm/android/features/CodeExecutor.ts:57-94 | an unsupported language is rejected before any write or native call; a failed write is rethrown with no file and no request; otherwise the native call receives the request, and the file is removed only when the call and the unlink both succeed, so a failed run leaves it behind |
| Groq.KeptEntries | app/lib/modules/llm/android/providers/GroqProvider.ts:58-60 | an entry is kept iff its `object` is `model`, it is active and its context window is above 8000; the result is no longer than the response |
| Groq.KeptEntriesAppend | app/lib/modules/llm/android/providers/GroqProvider.ts:58-60 | the filter keeps response order: the kept entries of a concatenation are those of each part, in place |
| Groq.KeptOne | app/lib/modules/llm/android/providers/GroqProvider.ts:58-60 | a single entry is kept exactly when it passes the test |
| Groq.ResponseModels | app/lib/modules/llm/android/providers/GroqProvider.ts:62-67 | one model per kept entry, in response order |
| Groq.KeptEntryInfo | app/lib/modules/llm/android/providers/GroqProvider.ts:62-67 | for a kept entry the name is its id, the provider `Groq`, the allowance its own context window (above 8000), and the label shows the window's thousands rounded down, then `k`, then the owner |
| Groq.ResponseModelsKept | app/lib/modules/llm/android/providers/GroqProvider.ts:58-67 | every model offered from a response comes from a kept entry and allows more than 8000 tokens |
| Groq.GetDynamicModels | app/lib/modules/llm/android/providers/GroqProvider.ts:33-72 | a missing key is thrown before any request; a failed request or parse yields the static list unchanged; otherwise the models built from the kept entries |
| Groq.GetModelInstance | app/lib/modules/llm/android/providers/GroqProvider.ts:74-105 | an instance is returned iff there is a key and building the client succeeds, and it targets the Groq base URL with that key and model; a missing key is an error before the client is built |
| LazyLoad.Inserted | app/lib/modules/llm/android/optimization/LazyLoader.ts:70-78 | after `push` and the sort the queue is in descending priority, holds exactly the old operations plus the new one, and operations of equal priority keep their order (the sort is stable) |
| LazyLoad.MergeConfig | app/lib/modules/llm/android/optimization/LazyLoader.ts:148 | each field is the update's when given and the old value otherwise |
| LazyLoad.LazyLoader.constructor | app/lib/modules/llm/android/optimization/LazyLoader.ts:23-30 | an empty queue, no active loads, and the default config (1000, 3, 3, 1000) |
| LazyLoad.LazyLoader.QueueLoad | app/lib/modules/llm/android/optimization/LazyLoader.ts:58-85 | an id already in the queue changes nothing (loads in flight are not looked at); otherwise a new operation with no retries is inserted by priority, which defaults to 0 |
| LazyLoad.LazyLoader.ProcessStep | app/lib/modules/llm/android/optimization/LazyLoader.ts:88-119 | at the concurrency cap or with an empty queue nothing happens; otherwise the head is taken, and on failure it is re-appended at the tail, unsorted, with one more retry and a wait of `retryDelay * retryCount` while retries remain, else dropped; `activeLoads` ends where it began |
| LazyLoad.LazyLoader.UpdateConfig | app/lib/modules/llm/android/optimization/LazyLoader.ts:147-151 | only the given fields change, and the merged config is saved |
| LazyLoad.LazyLoader.ClearQueue | app/lib/modules/llm/android/optimization/LazyLoader.ts:153-156 | the queue is empty |
| MessageSegments.NextMatch | app/components/Message.tsx:16-21 | a match found lies at or after the search position, starts with the opening fence and ends at a closing fence inside the content |
| MessageSegments.NoMatchFound | app/components/Message.tsx:21 | no match is reported only when the expression matches nowhere after the position |
| MessageSegments.MatchIsLeftmost | app/components/Message.tsx:16-21 | the match found is the leftmost one |
| MessageSegments.MatchCloses | app/components/Message.tsx:16 | the body ends at the first closing fence after the opening fence (the non-greedy `*?`) |
| MessageSegments.RenderAppend | app/components/Message.tsx:21-50 | putting two part lists back together is putting each back and concatenating |
| MessageSegments.SegmentsStep | app/components/Message.tsx:23-40 | one match contributes the text before it when there is any, then its diagram, and the split continues after the closing fence |
| MessageSegments.SegmentsShape | app/components/Message.tsx:23-50 | no text part is empty, and no diagram body contains a closing fence |
| MessageSegments.DiagramShaped | app/components/Message.tsx:16-35 | a diagram body holds no closing fence |
| MessageSegments.BodyHasNoFence | app/components/Message.tsx:16 | the text between the opening fence and the first closing fence contains no closing fence |
| MessageSegments.SegmentsRoundTrip | app/components/Message.tsx:21-50 | the text parts and the re-fenced diagram bodies, in order, reproduce the content exactly |
| MessageSegments.NoDiagram | app/components/Message.tsx:44-52 | content without a diagram yields one text part, or none when it is empty |
| MessageSegments.RenderContent | app/components/Message.tsx:15-53 | the loop's parts are the split of the content: they reproduce it exactly, no text part is empty, and no diagram body contains a closing fence |
| MessageSegments.PartsOfMatch | app/components/Message.tsx:23-40 | one turn of the loop: `lastIndex` strictly increases, stays within the content, and the parts emitted followed by the rest of the split are the split from the old `lastIndex` |
| Models.LastSegment | app/lib/modules/llm/android/ModelManager.ts:44 | `split('/').pop()`: a suffix of the URL with no `/`, preceded by a `/` when shorter than the URL, and empty iff the URL is empty or ends with `/` |
| Models.ModelName | app/lib/modules/llm/android/ModelManager.ts:44 | the name is never empty and holds no `/`: it is `model.tflite` when the URL is empty or ends with `/`, and the text after the last `/` otherwise |
| Models.FirstMatch | app/lib/modules/llm/android/ModelManager.ts:130 | `findIndex`: the index of the first entry whose path contains the name, or none when no entry does |
| Models.Find | app/lib/modules/llm/android/ModelManager.ts:148 | `find`: an entry is found iff some path contains the name, and the one found is the first entry of the list whose path contains it |
| Models.Upserted | app/lib/modules/llm/android/ModelManager.ts:129-136 | the first matching entry is replaced and every other entry kept in place, or, when none matches, the model is appended |
| Models.Filtered | app/lib/modules/llm/android/ModelManager.ts:158 | an entry survives iff its path does not contain the name, and the result is no longer than the list |
| Models.FilteredAppend | app/lib/modules/llm/android/ModelManager.ts:158 | the filter keeps list order: the surviving entries of a concatenation are those of each part, in place |
| Models.FilteredOne | app/lib/modules/llm/android/ModelManager.ts:158 | a single entry survives exactly when its path does not contain the name |
| Models.SaveThenFind | app/lib/modules/llm/android/ModelManager.ts:129-153 | a saved model whose path contains its name is what the next lookup of that name returns |
| Models.FirstMatchAt | app/lib/modules/llm/android/ModelManager.ts:130 | the first index whose entry matches is what `findIndex` returns |
| Models.RemoveThenFind | app/lib/modules/llm/android/ModelManager.ts:145-163 | after removal no lookup of the name finds anything |
| Models.PathMatchesName | app/lib/modules/llm/android/ModelManager.ts:44-45 | the path a model is downloaded to contains its name |
| Models.ModelManager.constructor | app/lib/modules/llm/android/ModelManager.ts:12 | the model directory and the stored list as given |
| Models.ModelManager.ListModels | app/lib/modules/llm/android/ModelManager.ts:117-125 | a missing or unparsable list reads as empty; otherwise the stored list |
| Models.ModelManager.GetModelInfo | app/lib/modules/llm/android/ModelManager.ts:145-153 | a model is returned iff some listed path contains the name, and it is the first listed model whose path contains it |
| Models.ModelManager.SaveModelInfo | app/lib/modules/llm/android/ModelManager.ts:127-143 | the list written back is the upsert of the listed models, so it grows by at most one |
| Models.ModelManager.RemoveModelInfo | app/lib/modules/llm/android/ModelManager.ts:155-164 | the list written back keeps, in order, only the entries whose path does not contain the name |
| Models.ModelManager.DownloadModel | app/lib/modules/llm/android/ModelManager.ts:42-73 | a failed download is rethrown with the list unchanged; otherwise the model at `modelDir/name` is saved, returned, and found by its name |
| Models.ModelManager.LoadModel | app/lib/modules/llm/android/ModelManager.ts:75-95 | an unknown name throws `Model <name> not found`; a known one that fails to load throws `Failed to load model <name>`; otherwise the model found is returned |
| Models.ModelManager.DeleteModel | app/lib/modules/llm/android/ModelManager.ts:97-115 | an unknown name throws with the list unchanged; a failed unlink is rethrown with the list unchanged; otherwise every matching entry is removed and the name no longer matches anything |
| OfflineIndicator.FadeTarget | app/components/OfflineIndicator.tsx:12 | the opacity target is 0 or 1 |
| OfflineIndicator.FadeMatchesVisibility | app/components/OfflineIndicator.tsx:12-20 | the fade targets 0 exactly when the indicator is hidden, that is online with nothing pending |
| OfflineIndicator.FailedMessages | app/components/OfflineIndicator.tsx:22 | a pending message counts as failed iff its retry count is at least 5 |
| OfflineIndicator.ShowsRetryIff | app/components/OfflineIndicator.tsx:18-39 | the retry button is shown iff some pending message has failed |
| OfflineIndicator.StatusText | app/components/OfflineIndicator.tsx:32-37 | offline text iff offline; otherwise the syncing line iff a sync is in progress; both online lines carry the pending count |
| OfflineIndicator.SyncingText | app/components/OfflineIndicator.tsx:35 | the syncing line starts with `Syncing ` and carries the count |
| OfflineIndicator.WaitingText | app/components/OfflineIndicator.tsx:36 | the waiting line starts with the count, and is neither the offline text nor a syncing line |
| OfflineIndicator.ResetRetries | app/components/OfflineIndicator.tsx:44-48 | every pending message, failed or not, keeps its id, content and timestamp, with retry count 0 and no last retry; length and order are kept |
| OfflineIndicator.Retried | app/components/OfflineIndicator.tsx:44-49 | the retry write changes only the pending messages, to their reset form |
| OfflineIndicator.RetryClearsFailures | app/components/OfflineIndicator.tsx:22-49 | after a retry nothing counts as failed and the button disappears, while the indicator is hidden iff it was before |
| OfflineIndicator.NoneFailed | app/components/OfflineIndicator.tsx:22 | messages that all have retry count below 5 give no failed message |
| OfflineIndicator.ResetIdempotent | app/components/OfflineIndicator.tsx:44-48 | resetting twice is resetting once |
| Performance.Above | app/lib/modules/llm/android/monitoring/PerformanceMonitor.ts:111-116 | a metric that is bad when high is critical iff strictly above the critical threshold, a warning iff strictly above the warning threshold but not critical, and normal otherwise |
| Performance.Below | app/lib/modules/llm/android/monitoring/PerformanceMonitor.ts:127-132 | the inverted rule: critical iff strictly below the critical threshold, a warning iff below the warning threshold but not critical, normal otherwise |
| Performance.Analyze | app/lib/modules/llm/android/monitoring/PerformanceMonitor.ts:109-141 | CPU (70/90), memory (80/90) and temperature (40/45) are classified strictly above, and FPS (30/20) strictly below; each metric gets exactly one level |
| Performance.Mitigations | app/lib/modules/llm/android/monitoring/PerformanceMonitor.ts:113-137 | a metric's critical handler is called iff that metric is critical, each at most once |
| Performance.UnclassifiedMetrics | app/lib/modules/llm/android/monitoring/PerformanceMonitor.ts:109-141 | battery, latency and disk usage do not affect the analysis |
| Performance.PerformanceMonitor.constructor | app/lib/modules/llm/android/monitoring/PerformanceMonitor.ts:26-27 | no history and no interval |
| Performance.PerformanceMonitor.StartMonitoring | app/lib/modules/llm/android/monitoring/PerformanceMonitor.ts:58-72 | any existing interval is cleared and a fresh one set, so at most one interval is ever live |
| Performance.PerformanceMonitor.Stop | app/lib/modules/llm/android/monitoring/PerformanceMonitor.ts:248-253 | the interval, if any, is cleared and forgotten; afterwards every interval ever set is cleared, and a second call changes nothing |
| Performance.PerformanceMonitor.UpdateHistory | app/lib/modules/llm/android/monitoring/PerformanceMonitor.ts:199-204 | the history is the last 100 (or fewer) samples in order, ending with the new one |
| Performance.PerformanceMonitor.Tick | app/lib/modules/llm/android/monitoring/PerformanceMonitor.ts:63-71 | a sample that cannot be gathered changes nothing; otherwise the handlers of its critical metrics run and it joins the bounded history |
| Routes.PreloadEach | app/lib/modules/llm/android/optimization/RouteLoader.ts:151-155 | the loop only adds ids, only ids of routes marked `preload`, and when no preload fails every such route is marked |
| Routes.VisitOrder | app/lib/modules/llm/android/optimization/RouteLoader.ts:146-148 | a copy of the routes in descending priority, holding exactly the same routes, with equal priorities kept in input order |
| Routes.PreloadRoutesAddsMarked | app/lib/modules/llm/android/optimization/RouteLoader.ts:143-160 | when every preload succeeds, the preloaded set gains exactly the ids of the routes marked `preload` |
| Routes.AllPass | app/lib/modules/llm/android/optimization/RouteLoader.ts:151-155 | when every preload succeeds, the loop succeeds |
| Routes.PreloadStep | app/lib/modules/llm/android/optimization/RouteLoader.ts:152-154 | after no failure, the next route is preloaded when marked and skipped otherwise |
| Routes.FailureSticks | app/lib/modules/llm/android/optimization/RouteLoader.ts:153-159 | once a preload fails, the routes after it are not visited |
| Routes.RouteLoader.constructor | app/lib/modules/llm/android/optimization/RouteLoader.ts:33-34 | an empty cache and no preloaded routes |
| Routes.RouteLoader.LoadRoute | app/lib/modules/llm/android/optimization/RouteLoader.ts:49-105 | a cache hit returns the cached component, refreshes its `lastAccessed` and loads nothing; a miss caches the component with `lastAccessed = now` only when every load succeeded, and a failure caches nothing and is rethrown |
| Routes.RouteLoader.PreloadRoute | app/lib/modules/llm/android/optimization/RouteLoader.ts:107-141 | a route already preloaded is a no-op; otherwise it is marked only when its loads succeeded, and a failure is rethrown |
| Routes.RouteLoader.PreloadRoutes | app/lib/modules/llm/android/optimization/RouteLoader.ts:143-160 | the routes are visited by descending priority without reordering the input, those marked `preload` are preloaded in turn, and the first failure ends the loop |
| Routes.RouteLoader.ClearCache | app/lib/modules/llm/android/optimization/RouteLoader.ts:162-171 | with no `olderThan` (or 0) every entry goes; otherwise exactly the entries with `now - lastAccessed > olderThan`; each removed id also leaves the preloaded set, and preloaded ids never cached stay |
| SecureStorage.KeyNameInjective | app/lib/modules/llm/android/secure/SecureStorageManager.ts:41-76 | two providers share a keychain item name `api_key_<provider>` only when they are the same provider |
| SecureStorage.SetKey | app/lib/modules/llm/android/secure/SecureStorageManager.ts:96-97 | the `if (apiKey)` test: a key is kept exactly when `getApiKey` reads one and it is not the empty string |
| SecureStorage.AllKeys | app/lib/modules/llm/android/secure/SecureStorageManager.ts:90-107 | the record `getAllApiKeys` builds holds each provider at most once, and a provider is in it exactly when it is listed and its key is set |
| SecureStorage.AllKeysLookup | app/lib/modules/llm/android/secure/SecureStorageManager.ts:95-100 | each listed provider maps to the key `getApiKey` reads for it (when set), and any other provider to nothing |
| SecureStorage.Without | app/lib/modules/llm/android/secure/SecureStorageManager.ts:80 | the filtered list holds exactly the listed providers other than the removed one, and stays duplicate-free |
| SecureStorage.SecureStorageManager.constructor | app/lib/modules/llm/android/secure/SecureStorageManager.ts:13-16 | the manager starts on the given keychain and stored list |
| SecureStorage.SecureStorageManager.StoredProviders | app/lib/modules/llm/android/secure/SecureStorageManager.ts:109-117 | a missing or unparsable `stored_providers` reads as the empty list, otherwise as the stored list |
| SecureStorage.SecureStorageManager.GetApiKey | app/lib/modules/llm/android/secure/SecureStorageManager.ts:57-71 | reads null exactly when the keychain has no item for the provider or the item is empty; otherwise the key is the decryption of the stored item |
| SecureStorage.SecureStorageManager.StoreApiKey | app/lib/modules/llm/android/secure/SecureStorageManager.ts:35-55 | the keychain item becomes the encrypted key; the provider is appended only when not yet listed, so the list stays duplicate-free; with a sound cipher the key then reads back unchanged |
| SecureStorage.SecureStorageManager.RemoveApiKey | app/lib/modules/llm/android/secure/SecureStorageManager.ts:73-88 | the keychain item goes, the list loses the provider and keeps the rest in order, and the key reads as null under any cipher |
| SecureStorage.SecureStorageManager.GetAllApiKeys | app/lib/modules/llm/android/secure/SecureStorageManager.ts:90-107 | the loop builds exactly the record `AllKeys` describes for the stored list and keychain |
| SecureStorage.SecureStorageManager.ClearAllData | app/lib/modules/llm/android/secure/SecureStorageManager.ts:119-135 | the keychain is empty and the provider list is removed |
| SecureStorage.SecureStorageManager.StoreAll | app/lib/modules/llm/android/secure/SecureStorageManager.ts:148-151 | re-storing distinct entries into a cleared store lists exactly their providers in order, and each provider reads back its entry's key |
| SecureStorage.SecureStorageManager.ChangePassword | app/lib/modules/llm/android/secure/SecureStorageManager.ts:137-158 | under the new cipher each listed provider reads the key it had (when set) and every other provider reads null; the list keeps exactly the providers that had a key, without duplicates |
| SecureStorage.DistinctFromNoDup | app/lib/modules/llm/android/secure/SecureStorageManager.ts:90-107 | the record `getAllApiKeys` returns has distinct providers, as `Object.entries` then yields |
| SecureStorage.StoreStep | app/lib/modules/llm/android/secure/SecureStorageManager.ts:149-151 | one `storeApiKey` of the re-store loop extends the keys read back by exactly that entry |
| Themes.FirstMissing | app/lib/modules/llm/android/ui/ThemeManager.ts:246-263 | the loop over the ten required colours finds nothing exactly when every one is present and non-empty, and what it finds is a required colour that is missing |
| Themes.FirstInvalid | app/lib/modules/llm/android/ui/ThemeManager.ts:265-271 | the loop over the colour entries finds nothing exactly when every value is `#` and 3 or 6 hex digits, and what it finds is an entry that is not |
| Themes.Validate | app/lib/modules/llm/android/ui/ThemeManager.ts:244-297 | `validateTheme` returns exactly when the theme is well formed: all required colours present, every colour a hex colour, a font family, and no zero (absent) font size, spacing or radius |
| Themes.ColorOfAt | app/lib/modules/llm/android/ui/ThemeManager.ts:260 | a colour key that appears once is read back with its own value |
| Themes.HexLiteral | app/lib/modules/llm/android/ui/ThemeManager.ts:266 | `#` and six hex digits match the colour pattern |
| Themes.RequiredColorsDistinct | app/lib/modules/llm/android/ui/ThemeManager.ts:246-257 | the ten required colour names are distinct |
| Themes.DefaultColorNames | app/lib/modules/llm/android/ui/ThemeManager.ts:95-106 | the built-in colours name the required colours, in the same order |
| Themes.DefaultColorsHex | app/lib/modules/llm/android/ui/ThemeManager.ts:95-106 | every built-in colour matches the colour pattern |
| Themes.DefaultColorsPresent | app/lib/modules/llm/android/ui/ThemeManager.ts:95-106 | every required colour is present and non-empty in the built-in theme |
| Themes.DefaultThemeIsValid | app/lib/modules/llm/android/ui/ThemeManager.ts:90-297 | the built-in default theme passes `validateTheme` |
| Themes.ZeroSizeRejected | app/lib/modules/llm/android/ui/ThemeManager.ts:284-289 | a zero spacing is treated as missing and rejected |
| Themes.Merge | app/lib/modules/llm/android/ui/ThemeManager.ts:179 | `{ ...theme, ...updates }`: each of the seven fields (id, name, isDark, colors, typography, spacing, borderRadius) is the given one when given and the stored one otherwise |
| Themes.ThemeManager.constructor | app/lib/modules/llm/android/ui/ThemeManager.ts:51-55 | no custom themes and the default theme current |
| Themes.ThemeManager.Put | app/lib/modules/llm/android/ui/ThemeManager.ts:161-182 | `Map.set`: the theme is stored under the id, which keeps its place if present and goes last otherwise |
| Themes.ThemeManager.CreateTheme | app/lib/modules/llm/android/ui/ThemeManager.ts:152-170 | the theme with its fresh id is validated first; an invalid one is an error and leaves the registry unchanged, a valid one is stored under its id (a new id goes last in the key order, an existing one keeps its place) and returned |
| Themes.ThemeManager.SetTheme | app/lib/modules/llm/android/ui/ThemeManager.ts:223-242 | an unknown id (other than `default`) is an error with the current theme unchanged; otherwise the result is the apply outcome and the current theme changes only when applying succeeded |
| Themes.ThemeManager.UpdateTheme | app/lib/modules/llm/android/ui/ThemeManager.ts:172-196 | an unknown id or an invalid merged theme is an error and changes nothing; otherwise the merged theme replaces the stored one in place, and when it is current it is re-applied and a failed apply is reported |
| Themes.ThemeManager.DeleteTheme | app/lib/modules/llm/android/ui/ThemeManager.ts:198-221 | deleting `default` or an unknown id is an error and changes nothing; otherwise the theme leaves the registry and its order, and if it was current the default is applied |
| Themes.ThemeManager.GetTheme | app/lib/modules/llm/android/ui/ThemeManager.ts:315-320 | `default` always yields the built-in theme; any other id yields its stored theme or nothing |
| Themes.ThemeManager.GetAllThemes | app/lib/modules/llm/android/ui/ThemeManager.ts:322-327 | the default first, then every custom theme in insertion order |
| Themes.ValuesOf | app/lib/modules/llm/android/ui/ThemeManager.ts:325 | `Array.from(map.values())`: the themes of the ids in order |
| Themes.Without | app/lib/modules/llm/android/ui/ThemeManager.ts:208 | the key order after `Map.delete` holds every other key |
| Themes.WithoutKeeps | app/lib/modules/llm/android/ui/ThemeManager.ts:208 | deleting a key keeps the key order duplicate-free |
| ChatScreen.LeadingSpace | app/screens/ChatScreen.tsx:32-34 | the white space at the start of the input, up to the first non-space |
| ChatScreen.TrailingSpace | app/screens/ChatScreen.tsx:32-34 | the white space at the end of the input, back to the last non-space |
| ChatScreen.Trim | app/screens/ChatScreen.tsx:32-34 | `trim` yields the input with its leading white space and a run of trailing white space cut off |
| ChatScreen.TrimEnds | app/screens/ChatScreen.tsx:32-34 | a trimmed string neither starts nor ends with white space, and is empty exactly when the input is all white space |
| ChatScreen.TrimIdempotent | app/screens/ChatScreen.tsx:32-34 | trimming twice is trimming once |
| ChatScreen.ChatScreen.constructor | app/screens/ChatScreen.tsx:22-23 | an empty input over the current messages, with nothing queued |
| ChatScreen.ChatScreen.SendMessage | app/screens/ChatScreen.tsx:31-61 | blank input changes nothing; otherwise the input is cleared and one user message with the trimmed content is appended, marked pending with the pending entry's id and queued when offline, and stamped with the clock when online |

## Left out

- AsyncStorage, the keychain, the file system, the native modules and `fetch` are not called. Each store is a map or a field, and the result of each call is a parameter of the operation that makes it.
- Exceptions thrown by AsyncStorage, the keychain or the file system are not modelled. A storage call always succeeds unless its outcome is a parameter.
- Encryption, compression and JSON (app/utils/encryption.ts, app/stores/compression.ts, `JSON.parse`/`JSON.stringify`) are functions in a `Codec` or `Cipher`. Only their inverse laws are assumed. The double encryption inside the keychain manager and the password-based key derivation are not part of this model.
- The `getInstance` singletons, and the `initialize` methods that read saved state back from storage, are not modelled; `CodeExecutor.initialize` is the exception. Each class starts from what its constructor sets.
- `SecureStorageManager.initialize` and `isInitialized` are not modelled. The encryption manager's state is the `Cipher` passed to each operation, and the new password in `changePassword` is the new `Cipher`.
- `setInterval`/`setTimeout` are not run. A timer is a field recording which interval is set and its period, and the tick or handler completion is a separate step.
- `Date.now()`, `Math.random()` (analytics sampling, event and session ids, theme ids, code file names) and the network state are parameters.
- ISO date strings (`lastBackup`, `lastChecked`, file modification times) are integer milliseconds.
- Floating point: the averages and peaks of the performance monitor and `formatBytes` in both quota files are not modelled. Metric samples are `real`, and NaN and Infinity are not represented in any module.
- The `storage`, `logStore` and `workbenchStore` stores, `addPendingMessage`, `CloudManager` and the background service are not part of this model. Only the entries and outcomes the core reads from them are fields or parameters.
- The rendering, styles and animation of Message.tsx, OfflineIndicator.tsx and ChatScreen.tsx are not modelled. So is ChatScreen's `saveMessages` effect.
- `StorageManager.clear` is not modelled.
- LazyLoad.LazyLoader.ProcessStep: models one step of the endless `processQueue` loop. The idle sleep is not modelled, and the `retryDelay * retryCount` wait is reported in the step rather than waited out.
- Routes.RouteLoader.LoadRoute: the component and asset loaders (with their polling waits) are one outcome per load, not separate dependency and asset steps.
- Performance.PerformanceMonitor.Tick: the mitigation calls into native code are the list of metrics to mitigate, not calls.
- Storage.Chunks: slices the payload by Unicode character, while `data.slice` slices by UTF-16 code unit, so a payload with characters outside the Basic Multilingual Plane gets different chunk boundaries (the join is the payload either way).
- Storage.StorageManager.UpdateStorageStats: takes the keys `getAllKeys()` returns as a parameter.
- Storage.StorageManager.Get: `getChunked`'s "Invalid chunked data" error cannot occur after `get` has checked the header, so the model has no such path.
- Storage.StorageManager.Get: reads a chunk header's count as its leading decimal digits. `parseInt` at app/lib/storage/StorageManager.ts:163 also skips leading white space and accepts a sign and a `0x` prefix, so a foreign header such as `chunked: 3` joins three chunks in the source and none in the model. `set` never writes such a header (see `Storage.ChunkCountOfHeader`).
- SecureStorage.SecureStorageManager.ChangePassword: re-stores the keys in the order they were listed. `Object.entries` puts integer-like provider names first, so the rebuilt list can differ in order (not in content) when a provider name is a number.
- TaskModel: the task table keeps insertion order for every id, whereas JavaScript objects put integer-like keys first. Only listing order depends on this.
- CodeExecution.GetFileExtension: an inherited property of the extension table (a language named `constructor` or `toString`) yields a function in the source; the model returns the language itself.
- ChatScreen.Trim: knows the ASCII white space, the line and paragraph separators, no-break space and the byte order mark. It omits the other Unicode space separators that `String.prototype.trim` also removes.
- Groq.ContextLabel: `context_window` is an integer; a fractional value is not represented.
- Analytics: sampling is a boolean given to `trackEvent`; the random draw is not modelled.
- BackgroundTasks.PassStep: models one step of a pass with log calls that return. As written the first task run ends the whole handler (see `BackgroundTasks.PassAsWrittenStopsEarly`).
- BackgroundTasks.TaskManager.StartAllTasks: returns normally. As written the call always rejects after its state change, because `logger` is not declared in app/lib/modules/llm/android/tasks/TaskManager.ts (see `BackgroundTasks.StartAllAsWritten`).
- BackgroundTasks.TaskManager.StopAllTasks: returns normally. As written the call always rejects after its state change (see `BackgroundTasks.StopAllAsWritten`).
- BackgroundTasks.TaskManager.RegisterTask: returns normally. As written it throws from `logger.debug` once its write is made; the stored table is the same.
- BackgroundTasks.TaskManager.EnableTask: returns normally. As written it throws from `logger.debug` once its write and rescheduling are made; the state is the same.
- BackgroundTasks.TaskManager.FinishTask: models the intended write (idle with `lastRun = now` on success). As written the success write is overwritten with `failed` (see `BackgroundTasks.SettleAsWritten`).
- BackgroundTasks.TaskManager.BackgroundPass: runs every due task of the pass. As written the pass and the handler end after the first task run (see `BackgroundTasks.PassAsWrittenStopsEarly`).
- BackgroundTasks.TaskManager.PassVisit: models one loop visit with log calls that return. As written the first run's rejection ends the loop.
- AndroidSystemTasks.RegisterAll: makes all four registrations. As written the first `registerTask` throws and the other three are never made (see `AndroidSystemTasks.InitializeAsWritten`).
- AndroidSystemTasks.InitializeSystemTasks: registers all four tasks and starts the registry. As written only `data-cleanup` is registered and `startAllTasks` is never called (see `AndroidSystemTasks.InitializeAsWrittenRegistersOne`).
- OfflineIndicator: app/components/OfflineIndicator.tsx opens `<Animated.View` at :25 and closes it with `</View>` at :58. The mismatched tag is a JSX syntax error, so as written the component (and app/screens/ChatScreen.tsx, which imports it at :18) fails to parse. The model gives the rules the component evidently intends.
- StoreQuotas: app/utils/storageQuotas.ts exports `formatBytes` twice (at :60 and again in the `export { formatBytes }` at :68). That is a duplicate export, so the module and its importers fail to load as written. The model gives the quota checks and cleanup the module evidently intends.
- Analytics.AnalyticsManager.Flush: one atomic step. The source awaits `NetInfo.fetch` and `sendEvents` between reading the queue and splicing it, so events tracked meanwhile interleave there; that interleaving is not modelled.

## Findings

| source | as written | input that shows it | evidently intended | confidence | as-written member | corrected member |
|---|---|---|---|---|---|---|
| app/lib/modules/llm/android/monitoring/AnalyticsManager.ts:140-155 | `events` is declared with `const` inside the `try`, so the `catch` that re-prepends it refers to an unbound name, throws a ReferenceError, and the spliced batch is lost | a non-empty queue, a connected device and a failing send | on a failed send the batch goes back to the head of the queue in its original order | not executed | Analytics.FlushAsWrittenLosesBatch | Analytics.FlushQueue |
| app/lib/modules/llm/android/tasks/TaskManager.ts:125-148 | `logger` is never declared or imported, so after a handler resolves, the idle write is followed by `logger.info`, which throws into the catch; the catch overwrites the entry as `failed` and throws again from `logger.error` | any enabled, idle task whose handler resolves | a resolved handler leaves its task idle with `lastRun` set to now | not executed | BackgroundTasks.SuccessEndsFailedAsWritten | BackgroundTasks.TaskManager.FinishTask |
| app/lib/modules/llm/android/tasks/TaskManager.ts:201-222 | the rejection of `startTask` lands in the loop's catch, whose `logger.error` throws, so the background handler ends after its first run | two enabled tasks that never ran | every due task runs on every pass, and the loop keeps going | not executed | BackgroundTasks.PassAsWrittenStopsEarly | BackgroundTasks.TaskManager.BackgroundPass |
| app/lib/modules/llm/android/tasks/TaskManager.ts:57-71 | `startAllTasks` logs with the undeclared `logger` after raising `isRunning`, so it rejects even when the service started | a background service start that resolves | the call resolves once the service started | not executed | BackgroundTasks.StartAllAsWrittenRejects | BackgroundTasks.TaskManager.StartAllTasks |
| app/lib/modules/llm/android/tasks/systemTasks.ts:12-27 | the first `registerTask` throws from its `logger.debug` call (app/lib/modules/llm/android/tasks/TaskManager.ts:100) and nothing catches it, so the other three tasks are never registered and the registry is never started | any call of `initializeSystemTasks` on an empty registry | all four tasks registered, then the registry started | not executed | AndroidSystemTasks.InitializeAsWrittenRegistersOne | AndroidSystemTasks.InitializeSystemTasks |
