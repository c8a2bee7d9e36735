/** The event queue of app/lib/modules/llm/android/monitoring/AnalyticsManager.ts:
    tracked events are appended and the queue is capped, a flush sends the first
    `batchSize` events when online, and the configuration and flush timer are kept
    beside it. The persisted copy under `queued_analytics` is the field `persisted`
    (`None` once removed); the stored configuration is `savedConfig`. Sampling, event
    ids and `now` are parameters, and so is the outcome of sending a batch. */
module Analytics {
  import opened Common

  datatype Event = Event(id: string, kind: string, timestamp: int, data: string, sessionId: string)

  datatype AnalyticsConfig = AnalyticsConfig(batchSize: int, flushInterval: int, maxQueueSize: int, samplingRate: real)

  /** `Partial<AnalyticsConfig>`. */
  datatype AnalyticsConfigUpdate = AnalyticsConfigUpdate(
    batchSize: Option<int>,
    flushInterval: Option<int>,
    maxQueueSize: Option<int>,
    samplingRate: Option<real>)

  const DefaultConfig := AnalyticsConfig(50, 60000, 1000, 1.0)

  /** The error the `catch` of `flush` raises when it names `events`, which was
      declared inside the `try`. */
  const EventsNotDefined := "ReferenceError: events is not defined"

  /** `{ ...config, ...update }`: a given field replaces, every other field stays. */
  function MergeConfig(c: AnalyticsConfig, u: AnalyticsConfigUpdate): (r: AnalyticsConfig)
    ensures r.batchSize == (if u.batchSize.Some? then u.batchSize.value else c.batchSize)
    ensures r.flushInterval == (if u.flushInterval.Some? then u.flushInterval.value else c.flushInterval)
    ensures r.maxQueueSize == (if u.maxQueueSize.Some? then u.maxQueueSize.value else c.maxQueueSize)
    ensures r.samplingRate == (if u.samplingRate.Some? then u.samplingRate.value else c.samplingRate)
  {
    AnalyticsConfig(
      if u.batchSize.Some? then u.batchSize.value else c.batchSize,
      if u.flushInterval.Some? then u.flushInterval.value else c.flushInterval,
      if u.maxQueueSize.Some? then u.maxQueueSize.value else c.maxQueueSize,
      if u.samplingRate.Some? then u.samplingRate.value else c.samplingRate)
  }

  /** The queue after `push(event)` and the cap test `length >= maxQueueSize`. */
  function Enqueue(q: seq<Event>, e: Event, maxQueueSize: int): seq<Event>
  {
    var pushed := q + [e];
    if |pushed| >= maxQueueSize then SliceFrom(pushed, -maxQueueSize) else pushed
  }

  /** With a positive cap the new event is last, the queue holds at most `cap`
      events, and what was dropped is the oldest: the queue is a suffix of the old
      queue followed by the event. */
  lemma EnqueueBounded(q: seq<Event>, e: Event, cap: int)
    requires cap >= 1
    ensures var r := Enqueue(q, e, cap);
      && |r| <= cap
      && r[|r| - 1] == e
      && r == (q + [e])[|q| + 1 - |r|..]
      && |r| == (if |q| + 1 > cap then cap else |q| + 1)
  {
  }

  /** A cap of 0 keeps the whole queue: `slice(-0)` is `slice(0)`. */
  lemma ZeroCapKeepsAll(q: seq<Event>, e: Event)
    ensures Enqueue(q, e, 0) == q + [e]
  {
  }

  /** `splice(0, batchSize)`: how many events a flush takes. */
  function BatchLength(q: seq<Event>, batchSize: int): (n: nat)
    ensures n <= |q|
    ensures batchSize >= 0 ==> n == (if batchSize < |q| then batchSize else |q|)
    ensures batchSize < 0 ==> n == 0
  {
    if batchSize <= 0 then 0 else if batchSize < |q| then batchSize else |q|
  }

  /** How one call of `flush` ended. */
  datatype FlushRun = Empty | Offline | Sent(batch: seq<Event>) | SendFailed(batch: seq<Event>)

  /** The events a flush delivers: none when the queue is empty, when offline or
      when the send fails. */
  function Delivered(q: seq<Event>, batchSize: int, connected: bool, send: Outcome): seq<Event>
  {
    if |q| == 0 || !connected || send.Fail? then [] else q[..BatchLength(q, batchSize)]
  }

  /** The queue after a flush that puts a failed batch back: nothing is lost or
      reordered, the delivered events followed by the queue left being the queue
      before the flush. */
  function FlushQueue(q: seq<Event>, batchSize: int, connected: bool, send: Outcome): (r: seq<Event>)
    ensures Delivered(q, batchSize, connected, send) + r == q
    ensures send.Fail? ==> r == q
  {
    if |q| == 0 || !connected || send.Fail? then q
    else
      var n := BatchLength(q, batchSize);
      assert q[..n] + q[n..] == q;
      q[n..]
  }

  /** `flush` as written, as a function of the queue: after a failed send the
      `catch` throws a ReferenceError before it can put the batch back, so the batch
      is lost and the queue is left at the rest. */
  function FlushAsWritten(q: seq<Event>, batchSize: int, connected: bool, send: Outcome): (seq<Event>, Outcome)
  {
    if |q| == 0 || !connected then (q, Pass)
    else
      var n := BatchLength(q, batchSize);
      if send.Pass? then (q[n..], Pass) else (q[n..], Fail(EventsNotDefined))
  }

  /** A failed send of a non-empty batch loses those events: nothing was delivered,
      yet the queue left is shorter than the queue before. */
  lemma FlushAsWrittenLosesBatch(q: seq<Event>, batchSize: int)
    requires |q| > 0 && batchSize > 0
    ensures var r := FlushAsWritten(q, batchSize, true, Fail("send failed"));
      && Delivered(q, batchSize, true, Fail("send failed")) + r.0 != q
      && r.0 == q[BatchLength(q, batchSize)..]
      && r.1 == Fail(EventsNotDefined)
  {
    var r := FlushAsWritten(q, batchSize, true, Fail("send failed"));
    assert |r.0| < |q|;
  }

  class AnalyticsManager {
    var queue: seq<Event>
    var persisted: Option<seq<Event>>
    var config: AnalyticsConfig
    var savedConfig: Option<AnalyticsConfig>
    /** The period of the flush interval, when one is set. */
    var flushTimer: Option<int>
    var sessionId: string

    constructor (sessionId: string)
      ensures queue == [] && persisted.None? && config == DefaultConfig && savedConfig.None?
      ensures flushTimer.None? && this.sessionId == sessionId
    {
      queue := [];
      persisted := None;
      config := DefaultConfig;
      savedConfig := None;
      flushTimer := None;
      this.sessionId := sessionId;
    }

    /** `trackEvent`: a sampled-out event changes nothing. Otherwise the event is
        appended, the queue capped and persisted, and `flushDue` says whether the
        queue reached `batchSize`, which starts a flush. */
    method TrackEvent(kind: string, data: string, sampledIn: bool, id: string, now: int) returns (flushDue: bool)
      modifies this`queue, this`persisted
      ensures !sampledIn ==> queue == old(queue) && persisted == old(persisted) && !flushDue
      ensures sampledIn ==>
        && queue == Enqueue(old(queue), Event(id, kind, now, data, sessionId), config.maxQueueSize)
        && persisted == Some(queue)
        && flushDue == (|queue| >= config.batchSize)
    {
      if !sampledIn {
        return false;
      }
      var event := Event(id, kind, now, data, sessionId);
      queue := queue + [event];
      if |queue| >= config.maxQueueSize {
        queue := SliceFrom(queue, -config.maxQueueSize);
      }
      persisted := Some(queue);
      flushDue := |queue| >= config.batchSize;
    }

    /** `flush`, with the batch restored at the head of the queue when the send fails,
        as the `catch` intends. An empty queue or no connection changes nothing. */
    method Flush(connected: bool, send: Outcome) returns (run: FlushRun)
      modifies this`queue, this`persisted
      ensures (|old(queue)| == 0 || !connected) ==>
        queue == old(queue) && persisted == old(persisted) && run == (if |old(queue)| == 0 then Empty else Offline)
      ensures |old(queue)| > 0 && connected ==>
        var n := BatchLength(old(queue), config.batchSize);
        && persisted == Some(queue)
        && (send.Pass? ==> run == Sent(old(queue)[..n]) && queue == old(queue)[n..])
        && (send.Fail? ==> run == SendFailed(old(queue)[..n]) && queue == old(queue))
      ensures queue == FlushQueue(old(queue), config.batchSize, connected, send)
    {
      if |queue| == 0 {
        return Empty;
      }
      if !connected {
        return Offline;
      }
      var n := BatchLength(queue, config.batchSize);
      var events := queue[..n];
      queue := queue[n..];
      if send.Pass? {
        persisted := Some(queue);
        run := Sent(events);
      } else {
        queue := events + queue;
        persisted := Some(queue);
        run := SendFailed(events);
      }
    }

    /** `updateConfig`: merge, save, and restart the flush timer with the new period. */
    method UpdateConfig(u: AnalyticsConfigUpdate)
      modifies this`config, this`savedConfig, this`flushTimer
      ensures config == MergeConfig(old(config), u)
      ensures savedConfig == Some(config) && flushTimer == Some(config.flushInterval)
    {
      config := MergeConfig(config, u);
      savedConfig := Some(config);
      flushTimer := Some(config.flushInterval);
    }

    /** `clearQueue`. */
    method ClearQueue()
      modifies this`queue, this`persisted
      ensures queue == [] && persisted.None?
    {
      queue := [];
      persisted := None;
    }

    /** `stop`: clears the flush timer; calling it again changes nothing. */
    method Stop()
      modifies this`flushTimer
      ensures flushTimer.None?
    {
      flushTimer := None;
    }
  }
}
