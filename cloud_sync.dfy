/** The cloud sync cycle of app/lib/modules/llm/android/cloud/CloudSyncManager.ts:
    a single-flight `sync` gated by the network, the pure conflict resolution that
    splits local and remote changes into an upload list and a download list, and
    the configuration and timer bookkeeping around them. */
module CloudSync {
  import opened Common

  /** A change record exchanged with the cloud; `id` is the message id. */
  datatype Change = Change(id: string, timestamp: int, payload: string)

  /** `conflictResolution`: 'local' | 'remote' | 'newest'. */
  datatype Policy = LocalWins | RemoteWins | Newest

  datatype SyncConfig = SyncConfig(
    enabled: bool,
    syncInterval: nat,
    wifiOnly: bool,
    conflictResolution: Policy,
    maxRetries: int,
    retryDelay: nat)

  /** `Partial<SyncConfig>`: `None` for a field the caller did not give. */
  datatype SyncConfigUpdate = SyncConfigUpdate(
    enabled: Option<bool>,
    syncInterval: Option<nat>,
    wifiOnly: Option<bool>,
    conflictResolution: Option<Policy>,
    maxRetries: Option<int>,
    retryDelay: Option<nat>)

  datatype SyncStats = SyncStats(
    lastSync: int,
    successfulSyncs: nat,
    failedSyncs: nat,
    bytesUploaded: nat,
    bytesDownloaded: nat)

  /** What NetInfo.fetch() reports. */
  datatype NetState = NetState(isConnected: bool, isWifi: bool)

  datatype Resolution = Resolution(toUpload: seq<Change>, toDownload: seq<Change>)

  datatype Side = Upload | Download

  /** How one call of `sync` ended. `Failed` says whether an extra retry was scheduled. */
  datatype SyncRun = AlreadyRunning | Skipped | Succeeded(resolution: Resolution) | Failed(retryScheduled: bool)

  const DefaultConfig := SyncConfig(false, 15 * 60 * 1000, true, Newest, 3, 5000)
  const ZeroStats := SyncStats(0, 0, 0, 0, 0)

  /** `{ ...config, ...update }`. */
  function MergeConfig(c: SyncConfig, u: SyncConfigUpdate): SyncConfig
  {
    SyncConfig(
      if u.enabled.Some? then u.enabled.value else c.enabled,
      if u.syncInterval.Some? then u.syncInterval.value else c.syncInterval,
      if u.wifiOnly.Some? then u.wifiOnly.value else c.wifiOnly,
      if u.conflictResolution.Some? then u.conflictResolution.value else c.conflictResolution,
      if u.maxRetries.Some? then u.maxRetries.value else c.maxRetries,
      if u.retryDelay.Some? then u.retryDelay.value else c.retryDelay)
  }

  /** The network gate of a sync cycle. */
  predicate NetworkAllows(net: NetState, wifiOnly: bool)
  {
    net.isConnected && !(wifiOnly && !net.isWifi)
  }

  // ---------------------------------------------------------------------
  // Conflict resolution
  // ---------------------------------------------------------------------

  function IdSet(cs: seq<Change>): set<string>
  {
    set c | c in cs :: c.id
  }

  predicate NoDupIds(cs: seq<Change>)
  {
    forall i, j :: 0 <= i < j < |cs| ==> cs[i].id != cs[j].id
  }

  /** `new Map(changes.map(c => [c.id, c]))`: a later entry with the same id overwrites
      an earlier one. */
  function ById(cs: seq<Change>): (m: map<string, Change>)
    ensures m.Keys == IdSet(cs)
    ensures forall id :: id in m ==> m[id] in cs && m[id].id == id
  {
    if cs == [] then map[]
    else
      var last := cs[|cs| - 1];
      var prev := ById(cs[..|cs| - 1]);
      assert cs == cs[..|cs| - 1] + [last];
      prev[last.id := last]
  }

  /** The entry a Map built from `cs` keeps for an id is the last one carrying it. */
  lemma {:induction false} ByIdKeepsLast(cs: seq<Change>, i: nat)
    requires i < |cs|
    requires forall j :: i < j < |cs| ==> cs[j].id != cs[i].id
    ensures ById(cs)[cs[i].id] == cs[i]
  {
    if i < |cs| - 1 {
      ByIdKeepsLast(cs[..|cs| - 1], i);
    }
  }

  /** The values of a sequence in order of first occurrence (`new Set(values)`). */
  function Dedupe(s: seq<string>): (r: seq<string>)
    ensures NoDup(r)
    ensures forall x :: x in r <==> x in s
  {
    if s == [] then []
    else
      var prev := Dedupe(s[..|s| - 1]);
      assert s == s[..|s| - 1] + [s[|s| - 1]];
      if s[|s| - 1] in prev then prev else prev + [s[|s| - 1]]
  }

  function Ids(cs: seq<Change>): (r: seq<string>)
    ensures |r| == |cs|
    ensures forall i :: 0 <= i < |cs| ==> r[i] == cs[i].id
  {
    if cs == [] then [] else [cs[0].id] + Ids(cs[1..])
  }

  /** Where one id goes, given its local and remote entries. */
  function Route(p: Policy, lm: map<string, Change>, rm: map<string, Change>, id: string): Side
    requires id in lm || id in rm
  {
    if id !in rm then Upload
    else if id !in lm then Download
    else match p
      case LocalWins => Upload
      case RemoteWins => Download
      case Newest => if lm[id].timestamp > rm[id].timestamp then Upload else Download
  }

  /** The `for (const id of allIds)` loop, pushing each id's record to one list. */
  function ResolveIds(p: Policy, ids: seq<string>, lm: map<string, Change>, rm: map<string, Change>): Resolution
    requires forall id :: id in ids ==> id in lm || id in rm
  {
    if ids == [] then Resolution([], [])
    else
      var id := ids[|ids| - 1];
      var prev := ResolveIds(p, ids[..|ids| - 1], lm, rm);
      if Route(p, lm, rm, id) == Upload
      then Resolution(prev.toUpload + [lm[id]], prev.toDownload)
      else Resolution(prev.toUpload, prev.toDownload + [rm[id]])
  }

  /** The ids of both sides in Map/Set insertion order: local ids first. */
  function AllIds(local: seq<Change>, remote: seq<Change>): seq<string>
  {
    Dedupe(Dedupe(Ids(local)) + Dedupe(Ids(remote)))
  }

  lemma IdsMembers(cs: seq<Change>)
    ensures forall x :: x in Ids(cs) <==> x in IdSet(cs)
  {
    forall x | x in IdSet(cs) ensures x in Ids(cs) {
      var c :| c in cs && c.id == x;
      var i :| 0 <= i < |cs| && cs[i] == c;
      assert Ids(cs)[i] == x;
    }
  }

  function ResolveConflicts(p: Policy, local: seq<Change>, remote: seq<Change>): Resolution
  {
    IdsMembers(local);
    IdsMembers(remote);
    ResolveIds(p, AllIds(local, remote), ById(local), ById(remote))
  }

  /** Every record in either list is the record of its side for an id of `ids`, and
      sits in the list that `Route` names for that id. */
  lemma {:induction false} ResolveIdsSound(p: Policy, ids: seq<string>, lm: map<string, Change>, rm: map<string, Change>)
    requires forall id :: id in ids ==> id in lm || id in rm
    requires forall id :: id in lm ==> lm[id].id == id
    requires forall id :: id in rm ==> rm[id].id == id
    ensures var r := ResolveIds(p, ids, lm, rm);
      && (forall c :: c in r.toUpload ==> c.id in ids && c.id in lm && c == lm[c.id] && Route(p, lm, rm, c.id) == Upload)
      && (forall c :: c in r.toDownload ==> c.id in ids && c.id in rm && c == rm[c.id] && Route(p, lm, rm, c.id) == Download)
  {
    if ids != [] {
      var front := ids[..|ids| - 1];
      assert forall x :: x in front ==> x in ids;
      ResolveIdsSound(p, front, lm, rm);
    }
  }

  /** Every id of `ids` lands in one of the two lists. */
  lemma {:induction false} ResolveIdsComplete(p: Policy, ids: seq<string>, lm: map<string, Change>, rm: map<string, Change>)
    requires forall id :: id in ids ==> id in lm || id in rm
    requires forall id :: id in lm ==> lm[id].id == id
    requires forall id :: id in rm ==> rm[id].id == id
    ensures var r := ResolveIds(p, ids, lm, rm);
      forall id :: id in ids ==> id in IdSet(r.toUpload) || id in IdSet(r.toDownload)
  {
    if ids != [] {
      var id := ids[|ids| - 1];
      var front := ids[..|ids| - 1];
      assert forall x :: x in front ==> x in ids;
      ResolveIdsComplete(p, front, lm, rm);
      var prev := ResolveIds(p, front, lm, rm);
      var r := ResolveIds(p, ids, lm, rm);
      assert IdSet(prev.toUpload) <= IdSet(r.toUpload);
      assert IdSet(prev.toDownload) <= IdSet(r.toDownload);
      assert forall x :: x in ids ==> x in front || x == id;
      if Route(p, lm, rm, id) == Upload {
        assert r.toUpload[|r.toUpload| - 1] == lm[id];
      } else {
        assert r.toDownload[|r.toDownload| - 1] == rm[id];
      }
    }
  }

  /** Distinct ids in give distinct ids in each list. */
  lemma {:induction false} ResolveIdsNoDup(p: Policy, ids: seq<string>, lm: map<string, Change>, rm: map<string, Change>)
    requires forall id :: id in ids ==> id in lm || id in rm
    requires forall id :: id in lm ==> lm[id].id == id
    requires forall id :: id in rm ==> rm[id].id == id
    requires NoDup(ids)
    ensures var r := ResolveIds(p, ids, lm, rm);
      NoDupIds(r.toUpload) && NoDupIds(r.toDownload)
  {
    if ids != [] {
      var id := ids[|ids| - 1];
      var front := ids[..|ids| - 1];
      assert forall x :: x in front ==> x in ids;
      assert NoDup(front);
      assert id !in front;
      ResolveIdsNoDup(p, front, lm, rm);
      ResolveIdsSound(p, front, lm, rm);
      var prev := ResolveIds(p, front, lm, rm);
      if Route(p, lm, rm, id) == Upload {
        var up := prev.toUpload + [lm[id]];
        forall i, j | 0 <= i < j < |up| ensures up[i].id != up[j].id {
          if j == |up| - 1 {
            assert up[i] in prev.toUpload;
          }
        }
      } else {
        var down := prev.toDownload + [rm[id]];
        forall i, j | 0 <= i < j < |down| ensures down[i].id != down[j].id {
          if j == |down| - 1 {
            assert down[i] in prev.toDownload;
          }
        }
      }
    }
  }

  /** `resolveConflicts` is a partition of the union of the ids of both sides. Each id
      appears exactly once in exactly one list. A local-only id is uploaded with its local
      record and a remote-only id is downloaded with its remote record. An id on both
      sides follows the policy, and under `newest` a tie goes to download. Within one
      side, duplicate ids collapse to the last entry (see ByIdKeepsLast). */
  lemma ResolveConflictsCorrect(p: Policy, local: seq<Change>, remote: seq<Change>)
    ensures var r := ResolveConflicts(p, local, remote);
      var lm := ById(local);
      var rm := ById(remote);
      && IdSet(r.toUpload) + IdSet(r.toDownload) == IdSet(local) + IdSet(remote)
      && IdSet(r.toUpload) !! IdSet(r.toDownload)
      && NoDupIds(r.toUpload) && NoDupIds(r.toDownload)
      && (forall c :: c in r.toUpload ==> c.id in lm && c == lm[c.id])
      && (forall c :: c in r.toDownload ==> c.id in rm && c == rm[c.id])
      && (forall id :: id in lm && id !in rm ==> id in IdSet(r.toUpload))
      && (forall id :: id !in lm && id in rm ==> id in IdSet(r.toDownload))
      && (forall id :: id in lm && id in rm ==>
            (id in IdSet(r.toUpload) <==>
              (p == LocalWins || (p == Newest && lm[id].timestamp > rm[id].timestamp))))
  {
    var r := ResolveConflicts(p, local, remote);
    var lm := ById(local);
    var rm := ById(remote);
    var up := IdSet(r.toUpload);
    var down := IdSet(r.toDownload);
    ResolutionRoutes(p, local, remote);
    RoutedIds(p, local, remote);
    assert up + down == lm.Keys + rm.Keys;
    forall id | id in lm && id in rm
      ensures id in up <==> (p == LocalWins || (p == Newest && lm[id].timestamp > rm[id].timestamp))
    {
      RouteOnBothSides(p, lm, rm, id);
      if id !in up {
        assert id in down;
      }
    }
  }

  /** The ids of each list are ids of its side routed to it. */
  lemma RoutedIds(p: Policy, local: seq<Change>, remote: seq<Change>)
    ensures var r := ResolveConflicts(p, local, remote);
      var lm := ById(local);
      var rm := ById(remote);
      && (forall id :: id in IdSet(r.toUpload) ==> id in lm && Route(p, lm, rm, id) == Upload)
      && (forall id :: id in IdSet(r.toDownload) ==> id in rm && Route(p, lm, rm, id) == Download)
  {
    var r := ResolveConflicts(p, local, remote);
    ResolutionRoutes(p, local, remote);
    forall id | id in IdSet(r.toUpload) ensures id in ById(local) && Route(p, ById(local), ById(remote), id) == Upload {
      var c :| c in r.toUpload && c.id == id;
    }
    forall id | id in IdSet(r.toDownload) ensures id in ById(remote) && Route(p, ById(local), ById(remote), id) == Download {
      var c :| c in r.toDownload && c.id == id;
    }
  }

  /** For an id on both sides only the policy, and under `newest` the timestamps,
      decide. */
  lemma RouteOnBothSides(p: Policy, lm: map<string, Change>, rm: map<string, Change>, id: string)
    requires id in lm && id in rm
    ensures Route(p, lm, rm, id) == Upload <==> (p == LocalWins || (p == Newest && lm[id].timestamp > rm[id].timestamp))
  {
  }

  /** Each record of the resolution is its side's record for an id routed to that
      side, every id of either side is routed, and neither list repeats an id. */
  lemma ResolutionRoutes(p: Policy, local: seq<Change>, remote: seq<Change>)
    ensures var r := ResolveConflicts(p, local, remote);
      var lm := ById(local);
      var rm := ById(remote);
      && (forall c :: c in r.toUpload ==> c.id in lm && c == lm[c.id] && Route(p, lm, rm, c.id) == Upload)
      && (forall c :: c in r.toDownload ==> c.id in rm && c == rm[c.id] && Route(p, lm, rm, c.id) == Download)
      && (forall id :: id in lm || id in rm ==> id in IdSet(r.toUpload) || id in IdSet(r.toDownload))
      && NoDupIds(r.toUpload) && NoDupIds(r.toDownload)
  {
    IdsMembers(local);
    IdsMembers(remote);
    var lm := ById(local);
    var rm := ById(remote);
    var ids := AllIds(local, remote);
    assert forall x :: x in ids <==> x in lm || x in rm;
    ResolveIdsSound(p, ids, lm, rm);
    ResolveIdsComplete(p, ids, lm, rm);
    ResolveIdsNoDup(p, ids, lm, rm);
  }

  // ---------------------------------------------------------------------
  // The manager
  // ---------------------------------------------------------------------

  class CloudSyncManager {
    var syncInProgress: bool
    var stats: SyncStats
    var config: SyncConfig
    /** Whether the `syncTimer` interval is set. */
    var timerActive: bool

    constructor ()
      ensures !syncInProgress && stats == ZeroStats && config == DefaultConfig && !timerActive
    {
      syncInProgress := false;
      stats := ZeroStats;
      config := DefaultConfig;
      timerActive := false;
    }

    /** The synchronous part of `sync()`: the single-flight guard and raising the flag.
        A call while a cycle is in flight returns at once and changes nothing. */
    method BeginSync() returns (started: bool)
      modifies this
      ensures started == !old(syncInProgress)
      ensures syncInProgress
      ensures stats == old(stats) && config == old(config) && timerActive == old(timerActive)
    {
      if syncInProgress {
        return false;
      }
      syncInProgress := true;
      started := true;
    }

    /** The rest of one sync cycle, after its awaits resolved. Each collaborator's
        reply is a parameter: the network state (`NetInfo.fetch` can reject, and it is
        awaited inside the try), the local and remote change lists,
        the bytes reported by upload and download, and whether `applyChanges`
        resolved. `applied` is the list handed to `applyChanges`, if it was called. */
    method CompleteSync(net: Result<NetState>, local: Result<seq<Change>>, remote: Result<seq<Change>>,
                        uploaded: Result<nat>, downloaded: Result<nat>, applyResult: Outcome, now: int)
      returns (run: SyncRun, applied: Option<seq<Change>>)
      requires syncInProgress
      modifies this
      ensures !syncInProgress && config == old(config) && timerActive == old(timerActive)
      ensures !run.AlreadyRunning?
      ensures run.Skipped? <==> net.Ok? && !NetworkAllows(net.value, config.wifiOnly)
      ensures (net.Err? || NetworkAllows(net.value, config.wifiOnly)) && !run.Succeeded? ==> run.Failed?
      ensures run.Skipped? ==> stats == old(stats) && applied.None?
      ensures run.Succeeded? <==>
        && net.Ok? && NetworkAllows(net.value, config.wifiOnly) && local.Ok? && remote.Ok?
        && var res := ResolveConflicts(config.conflictResolution, local.value, remote.value);
           && (|res.toUpload| > 0 ==> uploaded.Ok?)
           && (|res.toDownload| > 0 ==> downloaded.Ok? && applyResult.Pass?)
      ensures run.Succeeded? ==>
        && run.resolution == ResolveConflicts(config.conflictResolution, local.value, remote.value)
        && stats.lastSync == now
        && stats.successfulSyncs == old(stats.successfulSyncs) + 1
        && stats.failedSyncs == old(stats.failedSyncs)
        && stats.bytesUploaded == old(stats.bytesUploaded) + (if |run.resolution.toUpload| > 0 then uploaded.value else 0)
        && stats.bytesDownloaded == old(stats.bytesDownloaded) + (if |run.resolution.toDownload| > 0 then downloaded.value else 0)
        && (applied.Some? <==> |run.resolution.toDownload| > 0)
        && (applied.Some? ==> applied.value == run.resolution.toDownload)
      ensures run.Failed? ==>
        && stats.failedSyncs == old(stats.failedSyncs) + 1
        && stats.lastSync == old(stats.lastSync)
        && stats.successfulSyncs == old(stats.successfulSyncs)
        && run.retryScheduled == (stats.failedSyncs < config.maxRetries)
      // A failure before the changes are resolved counts no bytes and applies nothing.
      ensures run.Failed? && (net.Err? || local.Err? || remote.Err?) ==>
        && stats.bytesUploaded == old(stats.bytesUploaded)
        && stats.bytesDownloaded == old(stats.bytesDownloaded)
        && applied.None?
      // A later failure keeps the bytes of every transfer that completed before it,
      // and the download is applied exactly when it completed.
      ensures run.Failed? && net.Ok? && local.Ok? && remote.Ok? ==>
        var res := ResolveConflicts(config.conflictResolution, local.value, remote.value);
        var uploadDone := |res.toUpload| > 0 && uploaded.Ok?;
        var downloadDone := (|res.toUpload| == 0 || uploaded.Ok?) && |res.toDownload| > 0 && downloaded.Ok?;
        && stats.bytesUploaded == old(stats.bytesUploaded) + (if uploadDone then uploaded.value else 0)
        && stats.bytesDownloaded == old(stats.bytesDownloaded) + (if downloadDone then downloaded.value else 0)
        && (applied.Some? <==> downloadDone)
        && (applied.Some? ==> applied.value == res.toDownload && applyResult.Fail?)
    {
      applied := None;
      if net.Ok? && !NetworkAllows(net.value, config.wifiOnly) {
        syncInProgress := false;
        return Skipped, None;
      }
      var failed := false;
      if net.Err? || local.Err? || remote.Err? {
        failed := true;
      } else {
        var res := ResolveConflicts(config.conflictResolution, local.value, remote.value);
        if |res.toUpload| > 0 {
          if uploaded.Err? {
            failed := true;
          } else {
            stats := stats.(bytesUploaded := stats.bytesUploaded + uploaded.value);
          }
        }
        if !failed && |res.toDownload| > 0 {
          if downloaded.Err? {
            failed := true;
          } else {
            stats := stats.(bytesDownloaded := stats.bytesDownloaded + downloaded.value);
            applied := Some(res.toDownload);
            if applyResult.Fail? {
              failed := true;
            }
          }
        }
        if !failed {
          stats := stats.(lastSync := now, successfulSyncs := stats.successfulSyncs + 1);
          syncInProgress := false;
          return Succeeded(res), applied;
        }
      }
      stats := stats.(failedSyncs := stats.failedSyncs + 1);
      run := Failed(stats.failedSyncs < config.maxRetries);
      syncInProgress := false;
    }

    /** `updateConfig`: merge the update. If the result is enabled, restart the interval
        and start the initial sync; otherwise clear the interval. */
    method UpdateConfig(u: SyncConfigUpdate) returns (initialSyncStarted: bool)
      modifies this
      ensures config == MergeConfig(old(config), u)
      ensures stats == old(stats)
      ensures timerActive == config.enabled
      ensures config.enabled ==> syncInProgress && initialSyncStarted == !old(syncInProgress)
      ensures !config.enabled ==> syncInProgress == old(syncInProgress) && !initialSyncStarted
    {
      config := MergeConfig(config, u);
      if config.enabled {
        timerActive := true;
        initialSyncStarted := BeginSync();
      } else {
        Stop();
        initialSyncStarted := false;
      }
    }

    /** `stop`: clears the interval; calling it again changes nothing more. */
    method Stop()
      modifies this`timerActive
      ensures !timerActive
    {
      timerActive := false;
    }

    /** `getStats` returns a copy: a datatype value that later cycles cannot change. */
    method GetStats() returns (s: SyncStats)
      ensures s == stats
    {
      s := stats;
    }
  }
}
