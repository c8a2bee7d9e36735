/** The load queue of app/lib/modules/llm/android/optimization/LazyLoader.ts. Loads
    are queued once per id and kept in descending priority by a stable sort. One
    step of the processing loop starts the head of the queue when fewer than
    `maxConcurrentLoads` loads are active, awaits it, and re-appends a failed load
    at the tail while retries remain. The load functions are represented by the
    outcome each step is given. */
module LazyLoad {
  import opened Common

  datatype LoadOp = LoadOp(id: string, priority: int, retryCount: nat)

  datatype LazyLoadConfig = LazyLoadConfig(preloadThreshold: int, maxConcurrentLoads: int, retryAttempts: int, retryDelay: int)

  /** `Partial<LazyLoadConfig>`. */
  datatype LazyLoadConfigUpdate = LazyLoadConfigUpdate(
    preloadThreshold: Option<int>,
    maxConcurrentLoads: Option<int>,
    retryAttempts: Option<int>,
    retryDelay: Option<int>)

  const DefaultConfig := LazyLoadConfig(1000, 3, 3, 1000)

  /** What one turn of the processing loop did. */
  datatype Step =
    | Waited                              // at the concurrency cap, or nothing queued
    | Loaded(id: string)                  // the load succeeded
    | Retried(op: LoadOp, delay: int)     // failed; re-queued after `delay` ms
    | Dropped(id: string)                 // failed with no retries left

  function Priority(op: LoadOp): int
  {
    op.priority
  }

  predicate Queued(q: seq<LoadOp>, id: string)
  {
    exists i :: 0 <= i < |q| && q[i].id == id
  }

  /** `push` then `sort((a, b) => b.priority - a.priority)`: a permutation of the
      queue plus the new operation, highest priority first, and operations of equal
      priority in the order they were in before the sort. */
  function Inserted(q: seq<LoadOp>, op: LoadOp): (r: seq<LoadOp>)
    ensures SortedDesc(r, Priority)
    ensures multiset(r) == multiset(q) + multiset{op}
    ensures forall k :: WithKey(r, Priority, k) == WithKey(q + [op], Priority, k)
  {
    SortDescCorrect(q + [op], Priority);
    assert multiset(q + [op]) == multiset(q) + multiset{op};
    forall k ensures WithKey(SortDesc(q + [op], Priority), Priority, k) == WithKey(q + [op], Priority, k) {
      SortDescStable(q + [op], Priority, k);
    }
    SortDesc(q + [op], Priority)
  }

  /** `{ ...config, ...update }`. */
  function MergeConfig(c: LazyLoadConfig, u: LazyLoadConfigUpdate): (r: LazyLoadConfig)
    ensures r.preloadThreshold == (if u.preloadThreshold.Some? then u.preloadThreshold.value else c.preloadThreshold)
    ensures r.maxConcurrentLoads == (if u.maxConcurrentLoads.Some? then u.maxConcurrentLoads.value else c.maxConcurrentLoads)
    ensures r.retryAttempts == (if u.retryAttempts.Some? then u.retryAttempts.value else c.retryAttempts)
    ensures r.retryDelay == (if u.retryDelay.Some? then u.retryDelay.value else c.retryDelay)
  {
    LazyLoadConfig(
      if u.preloadThreshold.Some? then u.preloadThreshold.value else c.preloadThreshold,
      if u.maxConcurrentLoads.Some? then u.maxConcurrentLoads.value else c.maxConcurrentLoads,
      if u.retryAttempts.Some? then u.retryAttempts.value else c.retryAttempts,
      if u.retryDelay.Some? then u.retryDelay.value else c.retryDelay)
  }

  class LazyLoader {
    var queue: seq<LoadOp>
    var activeLoads: int
    var config: LazyLoadConfig
    var savedConfig: Option<LazyLoadConfig>

    constructor ()
      ensures queue == [] && activeLoads == 0 && config == DefaultConfig && savedConfig.None?
    {
      queue := [];
      activeLoads := 0;
      config := DefaultConfig;
      savedConfig := None;
    }

    /** `queueLoad`: a no-op when an operation with that id is queued (one being
        loaded is not in the queue and does not count); otherwise a fresh operation
        with no retries is added and the queue re-sorted. */
    method QueueLoad(id: string, priority: int := 0)
      modifies this`queue
      ensures Queued(old(queue), id) ==> queue == old(queue)
      ensures !Queued(old(queue), id) ==> queue == Inserted(old(queue), LoadOp(id, priority, 0))
    {
      var i := 0;
      while i < |queue|
        invariant 0 <= i <= |queue|
        invariant forall j :: 0 <= j < i ==> queue[j].id != id
      {
        if queue[i].id == id {
          return;
        }
        i := i + 1;
      }
      queue := Inserted(queue, LoadOp(id, priority, 0));
    }

    /** One turn of `processQueue`, with the load's outcome given. Below the cap and
        with something queued, the head is taken and loaded; `activeLoads` goes up
        before the load and down in `finally`, so it ends where it began. A failure
        with retries left bumps `retryCount` and re-appends the operation at the
        tail, unsorted, after a wait of `retryDelay * retryCount`. */
    method ProcessStep(outcome: Outcome) returns (step: Step)
      modifies this`queue, this`activeLoads
      ensures activeLoads == old(activeLoads)
      ensures old(activeLoads) >= config.maxConcurrentLoads || |old(queue)| == 0 ==>
        step == Waited && queue == old(queue)
      ensures old(activeLoads) < config.maxConcurrentLoads && |old(queue)| > 0 ==>
        var op := old(queue)[0];
        if outcome.Pass? then
          step == Loaded(op.id) && queue == old(queue)[1..]
        else if op.retryCount < config.retryAttempts then
          var again := op.(retryCount := op.retryCount + 1);
          step == Retried(again, config.retryDelay * again.retryCount) && queue == old(queue)[1..] + [again]
        else
          step == Dropped(op.id) && queue == old(queue)[1..]
    {
      if activeLoads >= config.maxConcurrentLoads || |queue| == 0 {
        return Waited;
      }
      var op := queue[0];
      queue := queue[1..];
      activeLoads := activeLoads + 1;
      if outcome.Pass? {
        step := Loaded(op.id);
      } else if op.retryCount < config.retryAttempts {
        op := op.(retryCount := op.retryCount + 1);
        step := Retried(op, config.retryDelay * op.retryCount);
        queue := queue + [op];
      } else {
        step := Dropped(op.id);
      }
      activeLoads := activeLoads - 1;
    }

    /** `updateConfig`: merge and save. */
    method UpdateConfig(u: LazyLoadConfigUpdate)
      modifies this`config, this`savedConfig
      ensures config == MergeConfig(old(config), u) && savedConfig == Some(config)
    {
      config := MergeConfig(config, u);
      savedConfig := Some(config);
    }

    /** `clearQueue`. */
    method ClearQueue()
      modifies this`queue
      ensures queue == []
    {
      queue := [];
    }
  }
}
