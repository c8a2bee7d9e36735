/** The performance monitor of
    app/lib/modules/llm/android/monitoring/PerformanceMonitor.ts: the threshold
    classification of a metrics sample, the bounded history of the last 100 samples,
    and the bookkeeping of the one monitoring interval. An interval is a number;
    `cleared` holds every interval that was cleared. The native metric readings are
    the sample given to each tick. */
module Performance {
  import opened Common

  datatype Metrics = Metrics(
    cpuUsage: real,
    memoryUsage: real,
    batteryLevel: real,
    fps: real,
    networkLatency: real,
    diskUsage: real,
    temperature: real)

  datatype Level = Normal | Warning | Critical

  /** The metrics with a critical handler, in the order they are checked. */
  datatype Metric = Cpu | Memory | Fps | Temperature

  datatype Analysis = Analysis(cpu: Level, memory: Level, fps: Level, temperature: Level)

  const MaxHistoryLength := 100

  const CpuWarning := 70.0
  const CpuCritical := 90.0
  const MemoryWarning := 80.0
  const MemoryCritical := 90.0
  const FpsWarning := 30.0
  const FpsCritical := 20.0
  const TemperatureWarning := 40.0
  const TemperatureCritical := 45.0

  /** The two-level test for a metric that is bad when high: strictly above. */
  function Above(v: real, warning: real, critical: real): (l: Level)
    requires warning <= critical
    ensures l == Critical <==> v > critical
    ensures l == Warning <==> warning < v <= critical
    ensures l == Normal <==> v <= warning
  {
    if v > critical then Critical else if v > warning then Warning else Normal
  }

  /** The two-level test for a metric that is bad when low: strictly below. */
  function Below(v: real, warning: real, critical: real): (l: Level)
    requires critical <= warning
    ensures l == Critical <==> v < critical
    ensures l == Warning <==> critical <= v < warning
    ensures l == Normal <==> v >= warning
  {
    if v < critical then Critical else if v < warning then Warning else Normal
  }

  /** `analyzeMetrics`: one level per classified metric. */
  function Analyze(m: Metrics): (a: Analysis)
    ensures a.cpu == Critical <==> m.cpuUsage > CpuCritical
    ensures a.cpu == Warning <==> CpuWarning < m.cpuUsage <= CpuCritical
    ensures a.memory == Critical <==> m.memoryUsage > MemoryCritical
    ensures a.memory == Warning <==> MemoryWarning < m.memoryUsage <= MemoryCritical
    ensures a.fps == Critical <==> m.fps < FpsCritical
    ensures a.fps == Warning <==> FpsCritical <= m.fps < FpsWarning
    ensures a.temperature == Critical <==> m.temperature > TemperatureCritical
    ensures a.temperature == Warning <==> TemperatureWarning < m.temperature <= TemperatureCritical
  {
    Analysis(
      Above(m.cpuUsage, CpuWarning, CpuCritical),
      Above(m.memoryUsage, MemoryWarning, MemoryCritical),
      Below(m.fps, FpsWarning, FpsCritical),
      Above(m.temperature, TemperatureWarning, TemperatureCritical))
  }

  /** The critical handlers `analyzeMetrics` starts, in order. */
  function Mitigations(a: Analysis): (r: seq<Metric>)
    ensures NoDup(r)
    ensures Cpu in r <==> a.cpu == Critical
    ensures Memory in r <==> a.memory == Critical
    ensures Fps in r <==> a.fps == Critical
    ensures Temperature in r <==> a.temperature == Critical
  {
    (if a.cpu == Critical then [Cpu] else []) +
    (if a.memory == Critical then [Memory] else []) +
    (if a.fps == Critical then [Fps] else []) +
    (if a.temperature == Critical then [Temperature] else [])
  }

  /** Battery, latency and disk usage are never classified. */
  lemma UnclassifiedMetrics(m: Metrics, battery: real, latency: real, disk: real)
    ensures Analyze(m.(batteryLevel := battery, networkLatency := latency, diskUsage := disk)) == Analyze(m)
  {
  }

  class PerformanceMonitor {
    var metricsHistory: seq<Metrics>
    var monitoringInterval: Option<nat>
    var nextInterval: nat
    var cleared: set<nat>

    /** The history is bounded, and the only interval ever set and not cleared is
        the current one. */
    ghost predicate Valid()
      reads this
    {
      && |metricsHistory| <= MaxHistoryLength
      && (monitoringInterval.Some? ==> monitoringInterval.value < nextInterval && monitoringInterval.value !in cleared)
      && (forall t :: t in cleared ==> t < nextInterval)
      && (forall t :: 0 <= t < nextInterval && t !in cleared ==> monitoringInterval == Some(t))
    }

    constructor ()
      ensures Valid() && metricsHistory == [] && monitoringInterval.None?
    {
      metricsHistory := [];
      monitoringInterval := None;
      nextInterval := 0;
      cleared := {};
    }

    /** `startMonitoring`: any existing interval is cleared before a new one is set. */
    method StartMonitoring()
      requires Valid()
      modifies this`monitoringInterval, this`nextInterval, this`cleared
      ensures Valid()
      ensures monitoringInterval == Some(old(nextInterval)) && nextInterval == old(nextInterval) + 1
      ensures cleared == old(cleared) + (if old(monitoringInterval).Some? then {old(monitoringInterval).value} else {})
    {
      ghost var before := monitoringInterval;
      if monitoringInterval.Some? {
        cleared := cleared + {monitoringInterval.value};
      }
      assert forall t :: 0 <= t < nextInterval ==> t in cleared by {
        forall t | 0 <= t < nextInterval && t !in old(cleared) ensures t in cleared {
          assert before == Some(t);
        }
      }
      monitoringInterval := Some(nextInterval);
      nextInterval := nextInterval + 1;
    }

    /** `stop`: clears the interval if there is one; a second call changes nothing. */
    method Stop()
      requires Valid()
      modifies this`monitoringInterval, this`cleared
      ensures Valid()
      ensures monitoringInterval.None?
      ensures cleared == old(cleared) + (if old(monitoringInterval).Some? then {old(monitoringInterval).value} else {})
      ensures forall t :: 0 <= t < nextInterval ==> t in cleared
    {
      if monitoringInterval.Some? {
        cleared := cleared + {monitoringInterval.value};
        monitoringInterval := None;
      }
    }

    /** `updateHistory`: push, then drop the oldest sample when over 100. */
    method UpdateHistory(m: Metrics)
      requires Valid()
      modifies this`metricsHistory
      ensures Valid()
      ensures metricsHistory == KeepLast(old(metricsHistory) + [m], MaxHistoryLength)
      ensures metricsHistory[|metricsHistory| - 1] == m
    {
      metricsHistory := metricsHistory + [m];
      if |metricsHistory| > MaxHistoryLength {
        metricsHistory := metricsHistory[1..];
      }
    }

    /** One run of the interval callback: a sample that could not be gathered is only
        logged; otherwise it is analysed and then added to the history. */
    method Tick(gathered: Result<Metrics>) returns (mitigations: seq<Metric>)
      requires Valid()
      modifies this`metricsHistory
      ensures Valid()
      ensures gathered.Err? ==> mitigations == [] && metricsHistory == old(metricsHistory)
      ensures gathered.Ok? ==>
        mitigations == Mitigations(Analyze(gathered.value)) &&
        metricsHistory == KeepLast(old(metricsHistory) + [gathered.value], MaxHistoryLength)
    {
      if gathered.Err? {
        return [];
      }
      mitigations := Mitigations(Analyze(gathered.value));
      UpdateHistory(gathered.value);
    }
  }
}
