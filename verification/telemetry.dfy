/**
 * One telemetry refresh of one device record: every vendor getter is an
 * oracle value, and a field is overwritten only when its getter succeeded.
 */
module Telemetry {
  import opened Wrappers
  import opened Integers
  import opened GpuInfoRecord

  /** Bytes per megabyte in the memory conversion (1024 * 1024). */
  const BytesPerMB: nat := 1024 * 1024

  /** Milliwatts per watt in the power conversions. */
  const MilliwattsPerWatt: nat := 1000

  /** The vendor's memory report, in bytes. */
  datatype MemoryInfo = MemoryInfo(usedBytes: nat, totalBytes: nat)

  /** The vendor's utilisation report, in percent. */
  datatype Utilization = Utilization(gpuPercent: nat, memoryPercent: nat)

  /**
   * What each getter returned for one device during one refresh. The power
   * limit is a single value: the program passes the same variable as both the
   * minimum and the maximum output of the constraints query.
   */
  datatype Reads = Reads(
    temperature: Option<nat>,
    memory: Option<MemoryInfo>,
    utilization: Option<Utilization>,
    powerUsageMilliwatts: Option<nat>,
    powerLimitMilliwatts: Option<nat>,
    coreClockMHz: Option<nat>,
    memoryClockMHz: Option<nat>,
    fanSpeed: Option<nat>
  )

  /** Every getter failed. */
  const NoReads: Reads := Reads(None, None, None, None, None, None, None, None)

  /** Bytes to whole megabytes, truncating. */
  function BytesToMB(bytes: nat): (mb: nat)
    ensures mb * BytesPerMB <= bytes < (mb + 1) * BytesPerMB
  {
    DivBounds(bytes, BytesPerMB);
    bytes / BytesPerMB
  }

  /** Milliwatts to whole watts, truncating. */
  function MilliwattsToWatts(mw: nat): (w: nat)
    ensures w * MilliwattsPerWatt <= mw < (w + 1) * MilliwattsPerWatt
  {
    DivBounds(mw, MilliwattsPerWatt);
    mw / MilliwattsPerWatt
  }

  /** The stored value of one field: the read value when the getter succeeded, the previous one otherwise. */
  function Keep(previous: int, read: Option<nat>): (stored: int)
    ensures read.Some? ==> stored == Int32Of(read.value)
    ensures read.None? ==> stored == previous
  {
    match read
    case Some(v) => Int32Of(v)
    case None => previous
  }

  /** `stored` is what a field holds after a refresh whose (already converted) read gave `read` over `previous`. */
  predicate Refreshed(previous: int, read: Option<nat>, stored: int) {
    stored == Keep(previous, read)
  }

  /** The converted readings, one per telemetry field. */
  function UsedMB(readout: Reads): Option<nat> {
    readout.memory.MapValue((m: MemoryInfo) => BytesToMB(m.usedBytes))
  }

  function TotalMB(readout: Reads): Option<nat> {
    readout.memory.MapValue((m: MemoryInfo) => BytesToMB(m.totalBytes))
  }

  function GpuPercent(readout: Reads): Option<nat> {
    readout.utilization.MapValue((u: Utilization) => u.gpuPercent)
  }

  function MemoryPercent(readout: Reads): Option<nat> {
    readout.utilization.MapValue((u: Utilization) => u.memoryPercent)
  }

  function UsageWatts(readout: Reads): Option<nat> {
    readout.powerUsageMilliwatts.MapValue(MilliwattsToWatts)
  }

  function LimitWatts(readout: Reads): Option<nat> {
    readout.powerLimitMilliwatts.MapValue(MilliwattsToWatts)
  }

  /**
   * `updateGPUInfo`: nothing happens unless the vendor library is active;
   * otherwise each telemetry field takes its freshly read, unit-converted
   * value when its getter succeeds and keeps its previous value when it fails.
   */
  function UpdateInfo(active: bool, gpu: GpuInfo, readout: Reads): (r: GpuInfo)
    ensures !active ==> r == gpu
    ensures SameIdentity(r, gpu) && SameTargets(r, gpu)
    ensures active ==> Refreshed(gpu.temperature, readout.temperature, r.temperature)
    ensures active ==> Refreshed(gpu.memoryUsed, UsedMB(readout), r.memoryUsed)
    ensures active ==> Refreshed(gpu.memoryTotal, TotalMB(readout), r.memoryTotal)
    ensures active ==> Refreshed(gpu.gpuUtilization, GpuPercent(readout), r.gpuUtilization)
    ensures active ==> Refreshed(gpu.memoryUtilization, MemoryPercent(readout), r.memoryUtilization)
    ensures active ==> Refreshed(gpu.powerUsage, UsageWatts(readout), r.powerUsage)
    ensures active ==> Refreshed(gpu.powerLimit, LimitWatts(readout), r.powerLimit)
    ensures active ==> Refreshed(gpu.coreClock, readout.coreClockMHz, r.coreClock)
    ensures active ==> Refreshed(gpu.memoryClock, readout.memoryClockMHz, r.memoryClock)
    ensures active ==> Refreshed(gpu.fanSpeed, readout.fanSpeed, r.fanSpeed)
  {
    if !active then gpu
    else
      gpu.(
        temperature := Keep(gpu.temperature, readout.temperature),
        memoryUsed := Keep(gpu.memoryUsed, UsedMB(readout)),
        memoryTotal := Keep(gpu.memoryTotal, TotalMB(readout)),
        gpuUtilization := Keep(gpu.gpuUtilization, GpuPercent(readout)),
        memoryUtilization := Keep(gpu.memoryUtilization, MemoryPercent(readout)),
        powerUsage := Keep(gpu.powerUsage, UsageWatts(readout)),
        powerLimit := Keep(gpu.powerLimit, LimitWatts(readout)),
        coreClock := Keep(gpu.coreClock, readout.coreClockMHz),
        memoryClock := Keep(gpu.memoryClock, readout.memoryClockMHz),
        fanSpeed := Keep(gpu.fanSpeed, readout.fanSpeed))
  }

  /** A refresh in which every getter fails leaves the record as it was. */
  lemma AllReadsFailedKeepsRecord(active: bool, gpu: GpuInfo)
    ensures UpdateInfo(active, gpu, NoReads) == gpu
  {
  }

  /** Refreshing twice with the same readings is the same as refreshing once. */
  lemma UpdateIdempotent(active: bool, gpu: GpuInfo, readout: Reads)
    ensures UpdateInfo(active, UpdateInfo(active, gpu, readout), readout) == UpdateInfo(active, gpu, readout)
  {
    var once := UpdateInfo(active, gpu, readout);
    var twice := UpdateInfo(active, once, readout);
    assert SameTelemetry(twice, once);
    RecordPartsDetermineRecord(twice, once);
  }

  /**
   * Retain-last-good-value across two polls: a temperature read at one poll
   * survives a failed temperature read at the next.
   */
  lemma TemperatureSurvivesFailedPoll(gpu: GpuInfo, first: Reads, second: Reads, t: nat)
    requires first.temperature == Some(t) && t < TwoTo31
    requires second.temperature == None
    ensures UpdateInfo(true, UpdateInfo(true, gpu, first), second).temperature == t
  {
  }

  /**
   * The memory fields are whole megabytes of the byte counts; a report below
   * 2^31 MB is stored without wrap-around.
   */
  lemma MemoryStoredInMB(gpu: GpuInfo, readout: Reads)
    requires readout.memory.Some?
    requires readout.memory.value.usedBytes < TwoTo31 * BytesPerMB
    requires readout.memory.value.totalBytes < TwoTo31 * BytesPerMB
    ensures var r := UpdateInfo(true, gpu, readout);
      && 0 <= r.memoryUsed && r.memoryUsed * BytesPerMB <= readout.memory.value.usedBytes < (r.memoryUsed + 1) * BytesPerMB
      && 0 <= r.memoryTotal && r.memoryTotal * BytesPerMB <= readout.memory.value.totalBytes < (r.memoryTotal + 1) * BytesPerMB
  {
    var m := readout.memory.value;
    var used := BytesToMB(m.usedBytes);
    var total := BytesToMB(m.totalBytes);
    DivBelow(m.usedBytes, BytesPerMB, TwoTo31);
    DivBelow(m.totalBytes, BytesPerMB, TwoTo31);
  }

  /** Power readings are stored as whole watts of the milliwatt values. */
  lemma PowerStoredInWatts(gpu: GpuInfo, readout: Reads)
    requires readout.powerUsageMilliwatts.Some? && readout.powerLimitMilliwatts.Some?
    requires readout.powerUsageMilliwatts.value < TwoTo32 && readout.powerLimitMilliwatts.value < TwoTo32
    ensures var r := UpdateInfo(true, gpu, readout);
      && r.powerUsage * 1000 <= readout.powerUsageMilliwatts.value < r.powerUsage * 1000 + 1000
      && r.powerLimit * 1000 <= readout.powerLimitMilliwatts.value < r.powerLimit * 1000 + 1000
  {
  }
}
