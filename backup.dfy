/** The automatic backup of app/lib/backup/AutoBackupManager.ts: the decision whether
    a backup is due, the backup itself (the export is an outcome given to it), the
    retention of the newest `retainCount` backup files, and the configuration and
    timer around them. `lastBackup` is a time in milliseconds rather than an ISO
    string; the stored configuration is `savedConfig`; a timer is the period it was
    set with. */
module AutoBackup {
  import opened Common

  datatype BackupConfig = BackupConfig(enabled: bool, interval: int, lastBackup: Option<int>, retainCount: int, wifiOnly: bool)

  /** `Partial<BackupConfig>`. */
  datatype BackupConfigUpdate = BackupConfigUpdate(
    enabled: Option<bool>,
    interval: Option<int>,
    lastBackup: Option<Option<int>>,
    retainCount: Option<int>,
    wifiOnly: Option<bool>)

  /** An entry of the download directory. */
  datatype BackupFile = BackupFile(name: string, mtime: int)

  const DefaultConfig := BackupConfig(true, 24, None, 5, true)
  const HourMs := 60 * 60 * 1000
  const MinFreeSpace := 100 * 1024 * 1024
  const BackupSuffix := ".boltbackup"

  function MergeConfig(c: BackupConfig, u: BackupConfigUpdate): (r: BackupConfig)
    ensures r.enabled == (if u.enabled.Some? then u.enabled.value else c.enabled)
    ensures r.interval == (if u.interval.Some? then u.interval.value else c.interval)
    ensures r.lastBackup == (if u.lastBackup.Some? then u.lastBackup.value else c.lastBackup)
    ensures r.retainCount == (if u.retainCount.Some? then u.retainCount.value else c.retainCount)
    ensures r.wifiOnly == (if u.wifiOnly.Some? then u.wifiOnly.value else c.wifiOnly)
  {
    BackupConfig(
      if u.enabled.Some? then u.enabled.value else c.enabled,
      if u.interval.Some? then u.interval.value else c.interval,
      if u.lastBackup.Some? then u.lastBackup.value else c.lastBackup,
      if u.retainCount.Some? then u.retainCount.value else c.retainCount,
      if u.wifiOnly.Some? then u.wifiOnly.value else c.wifiOnly)
  }

  /** Why `shouldRunBackup` said no, or that it said yes. */
  datatype Decision = Run | NotYetDue | InsufficientSpace | NotOnWifi

  /** `shouldRunBackup`: the time check, then the size check, then the wifi check. */
  function ShouldRunBackup(c: BackupConfig, now: int, totalSize: int, isWifi: bool): (d: Decision)
    ensures d == Run <==>
      && (c.lastBackup.None? || now >= c.lastBackup.value + c.interval * HourMs)
      && totalSize <= MinFreeSpace
      && (c.wifiOnly ==> isWifi)
    ensures c.lastBackup.Some? && now < c.lastBackup.value + c.interval * HourMs ==> d == NotYetDue
  {
    if c.lastBackup.Some? && now < c.lastBackup.value + c.interval * HourMs then NotYetDue
    else if totalSize > MinFreeSpace then InsufficientSpace
    else if c.wifiOnly && !isWifi then NotOnWifi
    else Run
  }

  function MTime(f: BackupFile): int
  {
    f.mtime
  }

  /** `files.filter(file => file.name.endsWith('.boltbackup'))`. */
  function Backups(files: seq<BackupFile>): (r: seq<BackupFile>)
    ensures |r| <= |files|
    ensures forall f :: f in r <==> f in files && EndsWith(f.name, BackupSuffix)
  {
    if files == [] then []
    else
      var init := Backups(files[..|files| - 1]);
      var f := files[|files| - 1];
      assert files == files[..|files| - 1] + [f];
      if EndsWith(f.name, BackupSuffix) then init + [f] else init
  }

  /** The files `cleanupOldBackups` deletes: the backups newest first, past the first
      `retainCount`. */
  function Victims(files: seq<BackupFile>, retainCount: int): seq<BackupFile>
  {
    var sorted := SortDesc(Backups(files), MTime);
    if |sorted| > retainCount then SliceFrom(sorted, retainCount) else []
  }

  /** Only backup files are ever deleted, and nothing is deleted when there are at
      most `retainCount` backups. */
  lemma VictimsAreBackups(files: seq<BackupFile>, retainCount: int)
    ensures forall v :: v in Victims(files, retainCount) ==> v in files && EndsWith(v.name, BackupSuffix)
    ensures |Backups(files)| <= retainCount ==> Victims(files, retainCount) == []
  {
    var b := Backups(files);
    var sorted := SortDesc(b, MTime);
    SortDescCorrect(b, MTime);
    forall v | v in Victims(files, retainCount) ensures v in b {
      assert v in sorted;
      assert v in multiset(sorted);
    }
  }

  /** Cutting a newest-first list leaves nothing in the tail newer than the head. */
  lemma SplitNewestFirst(sorted: seq<BackupFile>, n: nat)
    requires SortedDesc(sorted, MTime) && n <= |sorted|
    ensures multiset(sorted[..n]) + multiset(sorted[n..]) == multiset(sorted)
    ensures forall k, v :: k in sorted[..n] && v in sorted[n..] ==> k.mtime >= v.mtime
  {
    assert sorted[..n] + sorted[n..] == sorted;
    forall k, v | k in sorted[..n] && v in sorted[n..] ensures k.mtime >= v.mtime {
      var i :| 0 <= i < n && sorted[i] == k;
      var j :| n <= j < |sorted| && sorted[j] == v;
      assert MTime(sorted[i]) >= MTime(sorted[j]);
    }
  }

  /** Over `retainCount` backups, the victims are exactly the backups after the
      `retainCount` newest, and none is newer than a backup kept. */
  lemma RetentionKeepsNewest(files: seq<BackupFile>, retainCount: nat)
    requires |Backups(files)| > retainCount
    ensures var sorted := SortDesc(Backups(files), MTime);
      var kept := sorted[..retainCount];
      && Victims(files, retainCount) == sorted[retainCount..]
      && |Victims(files, retainCount)| == |Backups(files)| - retainCount
      && multiset(kept) + multiset(Victims(files, retainCount)) == multiset(Backups(files))
      && (forall k, v :: k in kept && v in Victims(files, retainCount) ==> k.mtime >= v.mtime)
  {
    var b := Backups(files);
    var sorted := SortDesc(b, MTime);
    SortDescCorrect(b, MTime);
    assert Victims(files, retainCount) == sorted[retainCount..];
    SplitNewestFirst(sorted, retainCount);
  }

  /** How one `performBackup` ended. */
  datatype BackupRun = Declined(reason: Decision) | ExportFailed(error: string) | Completed(deleted: seq<BackupFile>)

  class AutoBackupManager {
    var config: BackupConfig
    var savedConfig: Option<BackupConfig>
    var backupTimer: Option<int>

    constructor ()
      ensures config == DefaultConfig && savedConfig.None? && backupTimer.None?
    {
      config := DefaultConfig;
      savedConfig := None;
      backupTimer := None;
    }

    /** `performBackup`: nothing happens unless a backup is due; `lastBackup` is
        updated and saved only once the export succeeded, after which the old backups
        in `files` are pruned. The clock is read twice, on either side of the awaited
        export: `checkedAt` for the due test and `doneAt` for the new `lastBackup`. */
    method PerformBackup(checkedAt: int, totalSize: int, isWifi: bool, exported: Outcome, doneAt: int, files: seq<BackupFile>)
      returns (run: BackupRun)
      modifies this`config, this`savedConfig
      ensures ShouldRunBackup(old(config), checkedAt, totalSize, isWifi) != Run ==>
        run == Declined(ShouldRunBackup(old(config), checkedAt, totalSize, isWifi)) &&
        config == old(config) && savedConfig == old(savedConfig)
      ensures ShouldRunBackup(old(config), checkedAt, totalSize, isWifi) == Run && exported.Fail? ==>
        run == ExportFailed(exported.error) && config == old(config) && savedConfig == old(savedConfig)
      ensures ShouldRunBackup(old(config), checkedAt, totalSize, isWifi) == Run && exported.Pass? ==>
        && config == old(config).(lastBackup := Some(doneAt))
        && savedConfig == Some(config)
        && run == Completed(Victims(files, config.retainCount))
    {
      var decision := ShouldRunBackup(config, checkedAt, totalSize, isWifi);
      if decision != Run {
        return Declined(decision);
      }
      if exported.Fail? {
        return ExportFailed(exported.error);
      }
      config := config.(lastBackup := Some(doneAt));
      savedConfig := Some(config);
      run := Completed(Victims(files, config.retainCount));
    }

    /** `startBackupScheduler`: sets the interval and reports whether an immediate
        backup is started because none was ever made. */
    method StartBackupScheduler() returns (immediate: bool)
      modifies this`backupTimer
      ensures backupTimer == Some(config.interval * HourMs)
      ensures immediate <==> config.lastBackup.None?
    {
      backupTimer := Some(config.interval * HourMs);
      immediate := config.lastBackup.None?;
    }

    /** `updateConfig`: merge and save, clear any timer, and restart the scheduler
        only when the merged configuration is enabled. */
    method UpdateConfig(u: BackupConfigUpdate) returns (immediate: bool)
      modifies this`config, this`savedConfig, this`backupTimer
      ensures config == MergeConfig(old(config), u) && savedConfig == Some(config)
      ensures config.enabled ==> backupTimer == Some(config.interval * HourMs) && (immediate <==> config.lastBackup.None?)
      ensures !config.enabled ==> backupTimer.None? && !immediate
    {
      config := MergeConfig(config, u);
      savedConfig := Some(config);
      backupTimer := None;
      immediate := false;
      if config.enabled {
        immediate := StartBackupScheduler();
      }
    }

    /** `getConfig`. */
    method GetConfig() returns (c: BackupConfig)
      ensures c == config
    {
      c := config;
    }

    /** `stop`: clears the timer; calling it again changes nothing. */
    method Stop()
      modifies this`backupTimer
      ensures backupTimer.None?
    {
      backupTimer := None;
    }
  }
}
