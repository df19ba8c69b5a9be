/**
 * `GPUMonitor`: the device list and the operations that rebuild it, refresh
 * it and write tuning targets back to a device. Vendor-library results are
 * inputs: an `Option` per query, a `Probe` per enumerated index.
 */
module Monitor {
  import opened Wrappers
  import opened Integers
  import opened GpuInfoRecord
  import opened Telemetry

  /**
   * Which compile-time branch the program was built with: the vendor
   * management library (Windows), the identity-only Metal branch (Apple),
   * or neither.
   */
  datatype Platform = Windows | Apple | OtherPlatform

  datatype MonitorState = MonitorState(platform: Platform, nvmlInitialized: bool, gpus: seq<GpuInfo>)

  /** The vendor library is in use: built with it and it initialised. */
  predicate Active(m: MonitorState) {
    m.platform == Windows && m.nvmlInitialized
  }

  /** What the handle lookup of one enumerated index returned. */
  datatype Probe =
    | HandleFailed
    | HandleFound(name: string, readout: Reads)

  /** `initializeNVML`: the library counts as initialised only when built in and its init call succeeded. */
  function InitializeNvml(platform: Platform, initSucceeded: bool): (m: MonitorState)
    ensures m.nvmlInitialized <==> platform == Windows && initSucceeded
    ensures m.platform == platform && m.gpus == []
  {
    MonitorState(platform, platform == Windows && initSucceeded, [])
  }

  /**
   * The record created for a device whose handle was found, before it enters
   * the list: its telemetry is the first poll's converted readings, and a field
   * whose getter failed keeps the initial 0.
   */
  function EnumeratedRecord(name: string, driverVersion: string, readout: Reads): (g: GpuInfo)
    ensures g.name == name && g.driverVersion == driverVersion && g.isNvidia
    ensures HasInitialTargets(g) && WellFormed(g)
    ensures Refreshed(0, readout.temperature, g.temperature)
    ensures Refreshed(0, UsedMB(readout), g.memoryUsed) && Refreshed(0, TotalMB(readout), g.memoryTotal)
    ensures Refreshed(0, GpuPercent(readout), g.gpuUtilization)
    ensures Refreshed(0, MemoryPercent(readout), g.memoryUtilization)
    ensures Refreshed(0, UsageWatts(readout), g.powerUsage) && Refreshed(0, LimitWatts(readout), g.powerLimit)
    ensures Refreshed(0, readout.coreClockMHz, g.coreClock) && Refreshed(0, readout.memoryClockMHz, g.memoryClock)
    ensures Refreshed(0, readout.fanSpeed, g.fanSpeed)
  {
    UpdateInfo(true, NewRecord().(name := name, driverVersion := driverVersion, isNvidia := true), readout)
  }

  /** The record contributed by one probe, if its handle lookup succeeded. */
  function RecordOf(p: Probe, driverVersion: string): GpuInfo
    requires p.HandleFound?
  {
    EnumeratedRecord(p.name, driverVersion, p.readout)
  }

  /** One record per probe whose handle was found, in index order. */
  function Enumerate(probes: seq<Probe>, driverVersion: string): (r: seq<GpuInfo>)
    ensures |r| <= |probes|
    ensures forall k :: 0 <= k < |r| ==> r[k].isNvidia && HasInitialTargets(r[k])
  {
    if probes == [] then []
    else
      var last := probes[|probes| - 1];
      Enumerate(probes[..|probes| - 1], driverVersion)
        + (if last.HandleFound? then [RecordOf(last, driverVersion)] else [])
  }

  /** Indices of the probes whose handle lookup succeeded, ascending. */
  function FoundIndices(probes: seq<Probe>): (ix: seq<nat>)
    ensures forall k :: 0 <= k < |ix| ==> ix[k] < |probes| && probes[ix[k]].HandleFound?
    ensures forall k, l :: 0 <= k < l < |ix| ==> ix[k] < ix[l]
    ensures forall i :: 0 <= i < |probes| && probes[i].HandleFound? ==> i in ix
  {
    if probes == [] then []
    else
      var n := |probes| - 1;
      FoundIndices(probes[..n]) + (if probes[n].HandleFound? then [n] else [])
  }

  /**
   * The rebuilt list is exactly one record per successful index, in index
   * order: the k-th record comes from the k-th successful probe.
   */
  lemma {:induction false} EnumerateFollowsFoundIndices(probes: seq<Probe>, driverVersion: string)
    ensures var r := Enumerate(probes, driverVersion);
      var ix := FoundIndices(probes);
      && |r| == |ix|
      && forall k :: 0 <= k < |r| ==> r[k] == RecordOf(probes[ix[k]], driverVersion)
  {
    if probes != [] {
      var n := |probes| - 1;
      EnumerateFollowsFoundIndices(probes[..n], driverVersion);
      var r0 := Enumerate(probes[..n], driverVersion);
      var ix0 := FoundIndices(probes[..n]);
      forall k | 0 <= k < |r0|
        ensures probes[..n][ix0[k]] == probes[ix0[k]]
      {
      }
    }
  }

  /** When every handle lookup fails the list stays empty; when all succeed there is one record per index. */
  lemma {:induction false} EnumerateCount(probes: seq<Probe>, driverVersion: string)
    ensures (forall i :: 0 <= i < |probes| ==> probes[i].HandleFailed?) ==> Enumerate(probes, driverVersion) == []
    ensures (forall i :: 0 <= i < |probes| ==> probes[i].HandleFound?) ==> |Enumerate(probes, driverVersion)| == |probes|
  {
    if probes != [] {
      EnumerateCount(probes[..|probes| - 1], driverVersion);
    }
  }

  /**
   * The loop of `detectGPUs` over indices `[0, device_count)`: skip an index
   * whose handle lookup failed, append a record otherwise, and continue.
   */
  method EnumerateLoop(probes: seq<Probe>, driverVersion: string) returns (gpus: seq<GpuInfo>)
    ensures gpus == Enumerate(probes, driverVersion)
  {
    gpus := [];
    var i := 0;
    while i < |probes|
      invariant 0 <= i <= |probes|
      invariant gpus == Enumerate(probes[..i], driverVersion)
    {
      if probes[i].HandleFound? {
        gpus := gpus + [RecordOf(probes[i], driverVersion)];
      }
      assert probes[..i + 1][..i] == probes[..i];
      i := i + 1;
    }
    assert probes[..i] == probes;
  }

  /**
   * `detectGPUs`: the list is emptied and rebuilt. With the vendor library,
   * `enumeration` is `None` when the device-count query failed and otherwise
   * holds one probe per index below the count; `driverVersion` is the
   * system-wide driver string. On the Apple branch `metalDevice` is the name
   * of the default Metal device, if there is one.
   */
  function DetectGpus(m: MonitorState, enumeration: Option<seq<Probe>>, driverVersion: string,
                      metalDevice: Option<string>): (r: MonitorState)
    ensures r.platform == m.platform && r.nvmlInitialized == m.nvmlInitialized
    ensures m.platform == Windows && (!m.nvmlInitialized || enumeration.None?) ==> r.gpus == []
    ensures Active(m) && enumeration.Some? ==>
      var ix := FoundIndices(enumeration.value);
      && |r.gpus| == |ix|
      && forall k :: 0 <= k < |r.gpus| ==> r.gpus[k] == RecordOf(enumeration.value[ix[k]], driverVersion)
    ensures m.platform == Apple ==>
      r.gpus == (if metalDevice.Some? then [NewRecord().(name := metalDevice.value)] else [])
    ensures m.platform == OtherPlatform ==> r.gpus == []
    ensures forall k :: 0 <= k < |r.gpus| ==> HasInitialTargets(r.gpus[k]) && WellFormed(r.gpus[k])
  {
    var gpus :=
      match m.platform
      case Windows =>
        if m.nvmlInitialized && enumeration.Some? then
          EnumerateFollowsFoundIndices(enumeration.value, driverVersion);
          Enumerate(enumeration.value, driverVersion)
        else []
      case Apple =>
        if metalDevice.Some? then [NewRecord().(name := metalDevice.value)] else []
      case OtherPlatform => [];
    m.(gpus := gpus)
  }

  /**
   * The `GPUMonitor` constructor: initialise the library, then detect. A
   * Windows build whose init failed starts with no devices; one whose init
   * succeeded starts with the enumerated list.
   */
  function NewMonitor(platform: Platform, initSucceeded: bool, enumeration: Option<seq<Probe>>,
                      driverVersion: string, metalDevice: Option<string>): (r: MonitorState)
    ensures r.platform == platform
    ensures r.nvmlInitialized <==> platform == Windows && initSucceeded
    ensures platform == Windows && !initSucceeded ==> r.gpus == []
    ensures platform == Windows && initSucceeded ==>
      r.gpus == (if enumeration.Some? then Enumerate(enumeration.value, driverVersion) else [])
    ensures platform == Apple ==>
      r.gpus == (if metalDevice.Some? then [NewRecord().(name := metalDevice.value)] else [])
    ensures platform == OtherPlatform ==> r.gpus == []
  {
    DetectGpus(InitializeNvml(platform, initSucceeded), enumeration, driverVersion, metalDevice)
  }

  /**
   * `updateAllGPUs`: for every position `i` of the current list, `lookup(i)`
   * is the handle lookup of vendor index `i`: `None` when it failed (the
   * record is left alone), otherwise the getters' results for the device at
   * that vendor index. Positions and vendor indices coincide only when no
   * index was skipped at detection; otherwise a record is refreshed from a
   * different device (see `RefreshAfterSkippedIndex`).
   */
  function UpdateAllGpus(m: MonitorState, lookup: nat -> Option<Reads>): (r: MonitorState)
    ensures r.platform == m.platform && r.nvmlInitialized == m.nvmlInitialized
    ensures |r.gpus| == |m.gpus|
    ensures !Active(m) ==> r == m
    ensures forall i :: 0 <= i < |m.gpus| ==>
      && SameIdentity(r.gpus[i], m.gpus[i]) && SameTargets(r.gpus[i], m.gpus[i])
      && (lookup(i).None? ==> r.gpus[i] == m.gpus[i])
      && (lookup(i).Some? && Active(m) ==> r.gpus[i] == UpdateInfo(true, m.gpus[i], lookup(i).value))
  {
    if !Active(m) then m
    else
      var gpus := seq(|m.gpus|, i requires 0 <= i < |m.gpus| => RefreshOne(m.gpus[i], lookup(i)));
      assert forall i :: 0 <= i < |m.gpus| ==> gpus[i] == RefreshOne(m.gpus[i], lookup(i));
      m.(gpus := gpus)
  }

  /** One index of the refresh loop: the record is refreshed only if its handle was found. */
  function RefreshOne(g: GpuInfo, poll: Option<Reads>): GpuInfo {
    match poll
    case Some(readout) => UpdateInfo(true, g, readout)
    case None => g
  }

  /** A refresh in which no handle lookup succeeds changes nothing. */
  lemma UpdateAllWithoutHandles(m: MonitorState)
    ensures UpdateAllGpus(m, (i: nat) => None) == m
  {
    if Active(m) {
      var r := UpdateAllGpus(m, (i: nat) => None);
      assert r.gpus == m.gpus;
    }
  }

  /** Refreshing never changes which devices are listed, in which order. */
  lemma {:induction false} RefreshesKeepDeviceList(m: MonitorState, polls: seq<nat -> Option<Reads>>)
    ensures var r := RefreshAll(m, polls);
      && |r.gpus| == |m.gpus|
      && forall i :: 0 <= i < |m.gpus| ==> SameIdentity(r.gpus[i], m.gpus[i]) && SameTargets(r.gpus[i], m.gpus[i])
  {
    if polls != [] {
      RefreshesKeepDeviceList(m, polls[..|polls| - 1]);
    }
  }

  /** A sequence of periodic refreshes, oldest first. */
  function RefreshAll(m: MonitorState, polls: seq<nat -> Option<Reads>>): MonitorState {
    if polls == [] then m
    else UpdateAllGpus(RefreshAll(m, polls[..|polls| - 1]), polls[|polls| - 1])
  }

  /**
   * The refresh addresses devices by list position, not by the vendor index a
   * record was enumerated from: if index 0 failed at detection, the record of
   * device "B" (vendor index 1) sits at position 0 and is refreshed with the
   * readings of vendor index 0.
   */
  lemma RefreshAfterSkippedIndex(driverVersion: string)
    ensures var probes := [HandleFailed, HandleFound("B", NoReads)];
      var m := DetectGpus(MonitorState(Windows, true, []), Some(probes), driverVersion, None);
      var lookup := (i: nat) => if i == 0 then Some(NoReads.(temperature := Some(90))) else None;
      var r := UpdateAllGpus(m, lookup);
      && |r.gpus| == 1 && r.gpus[0].name == "B" && r.gpus[0].temperature == 90
  {
    var probes := [HandleFailed, HandleFound("B", NoReads)];
    assert probes[..1] == [HandleFailed];
    assert [HandleFailed][..0] == [];
    assert Enumerate([HandleFailed], driverVersion) == [];
    var b := RecordOf(probes[1], driverVersion);
    assert Enumerate(probes, driverVersion) == [b];
    var m := DetectGpus(MonitorState(Windows, true, []), Some(probes), driverVersion, None);
    assert m.gpus == [b];
    var lookup := (i: nat) => if i == 0 then Some(NoReads.(temperature := Some(90))) else None;
    var r := UpdateAllGpus(m, lookup);
    assert r.gpus[0] == UpdateInfo(true, b, NoReads.(temperature := Some(90)));
  }

  /**
   * Degraded mode: when the library failed to initialise, the monitor lists
   * no devices, refreshes change nothing, and every apply fails without writing.
   */
  lemma DegradedModeIsInert(enumeration: Option<seq<Probe>>, driverVersion: string, metalDevice: Option<string>,
                            lookup: nat -> Option<Reads>, gpuIndex: int, settings: GpuInfo, handleFound: bool)
    ensures var m := NewMonitor(Windows, false, enumeration, driverVersion, metalDevice);
      && m.gpus == []
      && UpdateAllGpus(m, lookup) == m
      && ApplyGpuSettings(m, gpuIndex, settings, handleFound) == ApplyOutcome(false, None, [])
  {
  }

  /** A hardware write the apply operation issues. */
  datatype Write =
    | SetPowerLimitConstraints(minMilliwatts: int, maxMilliwatts: int)
    | SetApplicationsClocks(memoryMHz: int, coreMHz: int)

  /**
   * Whether `applyGPUSettings` reported success, the vendor index whose handle
   * the writes were issued on (when one was obtained), and the writes in order.
   */
  datatype ApplyOutcome = ApplyOutcome(success: bool, device: Option<nat>, writes: seq<Write>)

  /**
   * The power limit sent for a target percentage of a baseline in watts:
   * the truncated percentage of the baseline, converted to `unsigned int`,
   * times 1000 in `unsigned int` arithmetic.
   */
  function PowerLimitMilliwatts(targetPercent: int, baselineWatts: int): (mw: int)
    requires targetPercent > 0
    ensures InUint32(mw)
  {
    Uint32Of(Uint32Of(CDiv(targetPercent * baselineWatts, 100)) * 1000)
  }

  /**
   * `applyGPUSettings(gpu_index, settings)`: the targets come from `settings`,
   * the power baseline from the monitor's record at list position `gpuIndex`,
   * while the writes go to the handle of vendor index `gpuIndex`;
   * `handleFound` is the result of that handle lookup. List position and
   * vendor index name the same device only when detection skipped no index
   * (see `ApplyAfterSkippedIndex`). The setters' status codes are discarded by
   * the program, so they are not inputs.
   */
  function ApplyGpuSettings(m: MonitorState, gpuIndex: int, settings: GpuInfo, handleFound: bool): (r: ApplyOutcome)
    ensures r.success <==> Active(m) && 0 <= gpuIndex < |m.gpus| && handleFound
    ensures !r.success ==> r.writes == [] && r.device.None?
    ensures r.success ==> r.device == Some(gpuIndex)
    ensures r.success ==>
      && |r.writes| == (if settings.targetPowerLimit > 0 then 1 else 0) + (if settings.targetCoreClock > 0 then 1 else 0)
      && (settings.targetPowerLimit > 0 ==>
            var mw := PowerLimitMilliwatts(settings.targetPowerLimit, m.gpus[gpuIndex].powerLimit);
            r.writes[0] == SetPowerLimitConstraints(mw, mw))
      && (settings.targetCoreClock > 0 ==>
            r.writes[|r.writes| - 1] == SetApplicationsClocks(Uint32Of(settings.targetMemoryClock),
                                                              Uint32Of(settings.targetCoreClock)))
  {
    if !Active(m) || !(0 <= gpuIndex < |m.gpus|) || !handleFound then ApplyOutcome(false, None, [])
    else
      var power :=
        if settings.targetPowerLimit > 0 then
          var mw := PowerLimitMilliwatts(settings.targetPowerLimit, m.gpus[gpuIndex].powerLimit);
          [SetPowerLimitConstraints(mw, mw)]
        else [];
      var clocks :=
        if settings.targetCoreClock > 0 then
          [SetApplicationsClocks(Uint32Of(settings.targetMemoryClock), Uint32Of(settings.targetCoreClock))]
        else [];
      ApplyOutcome(true, Some(gpuIndex), power + clocks)
  }

  /**
   * Apply addresses the hardware by vendor index but reads the baseline by
   * list position: if vendor index 0 failed at detection, the record of device
   * "B" (vendor index 1, limit 300 W) sits at position 0, and applying its
   * 110 percent target at index 0 sends 330000 mW to vendor index 0.
   */
  lemma ApplyAfterSkippedIndex(driverVersion: string)
    ensures var probes := [HandleFailed, HandleFound("B", NoReads.(powerLimitMilliwatts := Some(300_000)))];
      var m := DetectGpus(MonitorState(Windows, true, []), Some(probes), driverVersion, None);
      && |m.gpus| == 1 && m.gpus[0].name == "B" && m.gpus[0].powerLimit == 300
      && ApplyGpuSettings(m, 0, m.gpus[0].(targetPowerLimit := 110), true)
         == ApplyOutcome(true, Some(0), [SetPowerLimitConstraints(330_000, 330_000)])
  {
    var readout := NoReads.(powerLimitMilliwatts := Some(300_000));
    var probes := [HandleFailed, HandleFound("B", readout)];
    assert probes[..1] == [HandleFailed];
    assert [HandleFailed][..0] == [];
    assert Enumerate([HandleFailed], driverVersion) == [];
    var b := RecordOf(probes[1], driverVersion);
    assert Enumerate(probes, driverVersion) == [b];
    assert b.powerLimit == 300;
    assert PowerLimitMilliwatts(110, 300) == 330_000;
  }

  /**
   * Only the clock and power targets of `settings` matter: its fan curve is
   * never sent, and its telemetry and identity play no part (the baseline is
   * the monitor's record).
   */
  lemma ApplyDependsOnlyOnTargets(m: MonitorState, gpuIndex: int, s1: GpuInfo, s2: GpuInfo, handleFound: bool)
    requires s1.targetCoreClock == s2.targetCoreClock
    requires s1.targetMemoryClock == s2.targetMemoryClock
    requires s1.targetPowerLimit == s2.targetPowerLimit
    ensures ApplyGpuSettings(m, gpuIndex, s1, handleFound) == ApplyGpuSettings(m, gpuIndex, s2, handleFound)
  {
  }

  /**
   * Within realistic ranges the power write is the baseline scaled by the
   * percentage, truncated to whole watts, in milliwatts.
   */
  lemma PowerWriteIsTruncatedPercentage(targetPercent: int, baselineWatts: int)
    requires 0 < targetPercent && 0 <= baselineWatts
    requires targetPercent * baselineWatts < 400_000
    ensures var mw := PowerLimitMilliwatts(targetPercent, baselineWatts);
      var w := mw / 1000;
      && mw % 1000 == 0
      && w * 100 <= targetPercent * baselineWatts < w * 100 + 100
  {
    var q := CDiv(targetPercent * baselineWatts, 100);
    assert 0 <= q < 4000;
    assert Uint32Of(q) == q;
    assert Uint32Of(q * 1000) == q * 1000;
  }

  /** A 250 W device at 110 percent gets 275000 mW. */
  lemma PowerWriteExample()
    ensures PowerLimitMilliwatts(110, 250) == 275_000
  {
  }

  /** The quotient is truncated, not rounded: 50 percent of 333 W is sent as 166 W. */
  lemma PowerWriteTruncates()
    ensures PowerLimitMilliwatts(50, 333) == 166_000
  {
  }
}
