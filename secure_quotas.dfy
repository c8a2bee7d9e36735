/** The quota functions of app/lib/modules/llm/android/secure/StorageQuotas.ts over
    AsyncStorage, which is the map `items` of a `QuotaStore`; `keys` stands for what
    `getAllKeys()` returns. The cleanup parses each message or attachment record
    and removes those whose `timestamp` is more than 30 days before `now`. */
module SecureQuotas {
  import opened Common
  import opened UsageStats
  import opened QuotaRules

  const MaxAge := 30 * 24 * 60 * 60 * 1000

  /** What `new Date(JSON.parse(item).timestamp).getTime()` gives: a parse error
      (which aborts the cleanup), an invalid date (NaN, never older than anything),
      or a time in milliseconds. */
  datatype Stamp = Unparsable(error: string) | Undated | At(ms: int)

  /** Keys the cleanup looks at. */
  predicate Tracked(k: string)
  {
    StartsWith(k, MessagePrefix) || StartsWith(k, AttachmentPrefix)
  }

  /** A record old enough to be removed. */
  predicate Stale(items: map<string, string>, k: string, now: int, stampOf: string -> Stamp)
  {
    Tracked(k) && Present(items, k) && stampOf(items[k]).At? && now - stampOf(items[k]).ms > MaxAge
  }

  /** A record that aborts the cleanup. */
  predicate Broken(items: map<string, string>, k: string, stampOf: string -> Stamp)
  {
    Tracked(k) && Present(items, k) && stampOf(items[k]).Unparsable?
  }

  /** The keys the collecting loop gathers from `keys`, in order, or the error of the
      first record that does not parse. */
  function Collect(keys: seq<string>, items: map<string, string>, now: int, stampOf: string -> Stamp): Result<seq<string>>
  {
    if keys == [] then Ok([])
    else
      var k := keys[|keys| - 1];
      var prefix := Collect(keys[..|keys| - 1], items, now, stampOf);
      if prefix.Err? then prefix
      else if Broken(items, k, stampOf) then Err(stampOf(items[k]).error)
      else if Stale(items, k, now, stampOf) then Ok(prefix.value + [k])
      else prefix
  }

  /** The collection fails exactly when some tracked record does not parse; when it
      succeeds it holds exactly the stale keys. */
  lemma {:induction false} CollectCorrect(keys: seq<string>, items: map<string, string>, now: int, stampOf: string -> Stamp)
    ensures Collect(keys, items, now, stampOf).Err? <==> exists k :: k in keys && Broken(items, k, stampOf)
    ensures Collect(keys, items, now, stampOf).Ok? ==>
      forall k :: k in Collect(keys, items, now, stampOf).value <==> k in keys && Stale(items, k, now, stampOf)
  {
    if keys != [] {
      var init := keys[..|keys| - 1];
      var k := keys[|keys| - 1];
      CollectCorrect(init, items, now, stampOf);
      assert keys == init + [k];
      if exists k' :: k' in init && Broken(items, k', stampOf) {
        var k' :| k' in init && Broken(items, k', stampOf);
        assert k' in keys;
      }
    }
  }

  /** The first unparsable record ends the collection: later keys do not matter. */
  lemma {:induction false} CollectStopsAtError(keys: seq<string>, n: nat, items: map<string, string>, now: int, stampOf: string -> Stamp)
    requires n <= |keys| && Collect(keys[..n], items, now, stampOf).Err?
    ensures Collect(keys, items, now, stampOf) == Collect(keys[..n], items, now, stampOf)
    decreases |keys|
  {
    if n < |keys| {
      var init := keys[..|keys| - 1];
      assert init[..n] == keys[..n];
      CollectStopsAtError(init, n, items, now, stampOf);
    } else {
      assert keys[..n] == keys;
    }
  }

  class QuotaStore {
    var items: map<string, string>

    constructor (initial: map<string, string>)
      ensures items == initial
    {
      items := initial;
    }

    /** `getStorageStats`. */
    method GetStorageStats(keys: seq<string>) returns (stats: StorageStats)
      ensures stats == StatsOf(keys, items)
    {
      stats := ComputeStats(keys, items);
    }

    /** `checkStorageQuotas`: the classification of the stats just read, returned
        with them. */
    method CheckStorageQuotas(keys: seq<string>) returns (report: QuotaReport, stats: StorageStats)
      ensures stats == StatsOf(keys, items)
      ensures report == Check(stats)
      ensures report.withinLimits <==>
        TotalSize(keys, items) <= TotalStorageLimit &&
        MessageCount(keys, items) <= MessageCountLimit &&
        AttachmentSize(keys, items) <= AttachmentSizeLimit
    {
      stats := GetStorageStats(keys);
      report := Check(stats);
    }

    /** `cleanupStorage`: the collecting loop, then one `multiRemove` of the keys
        found, skipped when there are none. A record that does not parse aborts the
        whole cleanup before anything is removed. */
    method CleanupStorage(keys: seq<string>, now: int, stampOf: string -> Stamp) returns (removed: Result<seq<string>>)
      modifies this
      ensures removed == Collect(keys, old(items), now, stampOf)
      ensures removed.Err? || removed.value == [] ==> items == old(items)
      ensures removed.Ok? ==> items == old(items) - set k | k in removed.value
    {
      var toRemove: seq<string> := [];
      var i := 0;
      while i < |keys|
        invariant 0 <= i <= |keys|
        invariant Collect(keys[..i], items, now, stampOf) == Ok(toRemove)
      {
        var key := keys[i];
        assert keys[..i + 1] == keys[..i] + [key];
        if Tracked(key) && key in items && items[key] != "" {
          var stamp := stampOf(items[key]);
          if stamp.Unparsable? {
            CollectStopsAtError(keys, i + 1, items, now, stampOf);
            return Err(stamp.error);
          }
          if stamp.At? && now - stamp.ms > MaxAge {
            toRemove := toRemove + [key];
          }
        }
        i := i + 1;
      }
      assert keys[..i] == keys;
      removed := Ok(toRemove);
      if |toRemove| > 0 {
        items := items - set k | k in toRemove;
      }
    }
  }

  /** Cleanup removes exactly the stale tracked records and leaves every other key as
      it was. */
  lemma CleanupKeeps(keys: seq<string>, items: map<string, string>, now: int, stampOf: string -> Stamp, k: string)
    requires Collect(keys, items, now, stampOf).Ok?
    ensures var after := items - set k' | k' in Collect(keys, items, now, stampOf).value;
      (k in after <==> k in items && !(k in keys && Stale(items, k, now, stampOf))) &&
      (k in after ==> after[k] == items[k])
  {
    CollectCorrect(keys, items, now, stampOf);
  }

  /** A record exactly 30 days old is kept: the age test is strict. */
  lemma ThirtyDaysIsKept(keys: seq<string>, items: map<string, string>, now: int, stampOf: string -> Stamp, k: string)
    requires k in items && stampOf(items[k]) == At(now - MaxAge)
    requires Collect(keys, items, now, stampOf).Ok?
    ensures k !in Collect(keys, items, now, stampOf).value
  {
    CollectCorrect(keys, items, now, stampOf);
  }
}
