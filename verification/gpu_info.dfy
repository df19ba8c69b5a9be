/**
 * The per-device record. One record holds both the live telemetry of a
 * device and the tuning target the operator is editing for it.
 */
module GpuInfoRecord {

  /** Number of points on a fan curve (temperature anchors 30, 50, 65, 75, 85 degrees C). */
  const FanCurvePoints: nat := 5

  /** Fan curve a freshly created record carries. */
  const InitialFanCurve: seq<int> := [30, 40, 50, 70, 85]

  /** Power-limit target of a fresh record, in percent of the device's limit. */
  const InitialPowerTarget: int := 100

  datatype GpuInfo = GpuInfo(
    // identity
    name: string,
    driverVersion: string,
    isNvidia: bool,
    // telemetry, in the stored units: degrees C, MB, percent, W, MHz
    temperature: int,
    memoryUsed: int,
    memoryTotal: int,
    gpuUtilization: int,
    memoryUtilization: int,
    powerUsage: int,
    powerLimit: int,
    coreClock: int,
    memoryClock: int,
    fanSpeed: int,
    // tuning target
    targetCoreClock: int,
    targetMemoryClock: int,
    targetFanCurve: seq<int>,
    targetPowerLimit: int
  )

  /** A record as the class's member initialisers leave it. */
  function NewRecord(): (g: GpuInfo)
    ensures g.name == "" && g.driverVersion == "" && !g.isNvidia
    ensures AllTelemetryZero(g)
    ensures HasInitialTargets(g)
    ensures WellFormed(g)
  {
    GpuInfo("", "", false, 0, 0, 0, 0, 0, 0, 0, 0, 0, 0,
            0, 0, InitialFanCurve, InitialPowerTarget)
  }

  /** The fixed-size fan-curve array always holds five entries. */
  predicate WellFormed(g: GpuInfo) {
    |g.targetFanCurve| == FanCurvePoints
  }

  predicate AllTelemetryZero(g: GpuInfo) {
    && g.temperature == 0 && g.memoryUsed == 0 && g.memoryTotal == 0
    && g.gpuUtilization == 0 && g.memoryUtilization == 0
    && g.powerUsage == 0 && g.powerLimit == 0
    && g.coreClock == 0 && g.memoryClock == 0 && g.fanSpeed == 0
  }

  predicate HasInitialTargets(g: GpuInfo) {
    && g.targetCoreClock == 0
    && g.targetMemoryClock == 0
    && g.targetFanCurve == InitialFanCurve
    && g.targetPowerLimit == InitialPowerTarget
  }

  /** `a` and `b` describe the same device: name, driver and vendor flag agree. */
  predicate SameIdentity(a: GpuInfo, b: GpuInfo) {
    a.name == b.name && a.driverVersion == b.driverVersion && a.isNvidia == b.isNvidia
  }

  /** `a` and `b` carry the same tuning target. */
  predicate SameTargets(a: GpuInfo, b: GpuInfo) {
    && a.targetCoreClock == b.targetCoreClock
    && a.targetMemoryClock == b.targetMemoryClock
    && a.targetFanCurve == b.targetFanCurve
    && a.targetPowerLimit == b.targetPowerLimit
  }

  /** `a` and `b` carry the same telemetry. */
  predicate SameTelemetry(a: GpuInfo, b: GpuInfo) {
    && a.temperature == b.temperature
    && a.memoryUsed == b.memoryUsed && a.memoryTotal == b.memoryTotal
    && a.gpuUtilization == b.gpuUtilization && a.memoryUtilization == b.memoryUtilization
    && a.powerUsage == b.powerUsage && a.powerLimit == b.powerLimit
    && a.coreClock == b.coreClock && a.memoryClock == b.memoryClock
    && a.fanSpeed == b.fanSpeed
  }

  /** A record is determined by its identity, telemetry and target. */
  lemma RecordPartsDetermineRecord(a: GpuInfo, b: GpuInfo)
    requires SameIdentity(a, b) && SameTelemetry(a, b) && SameTargets(a, b)
    ensures a == b
  {
  }
}
