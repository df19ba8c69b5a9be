# GPU monitor and tuner: a Dafny model of its device, telemetry and tuning logic

The program lists NVIDIA accelerators through the NVML management library and
refreshes their telemetry about once a second. It lets the operator stage
clock, power-limit and fan-curve targets and write the clock and power targets
back to the device. It also plots a short history of the selected device's
readings.

This project models that logic as pure functions over immutable values.

- Every NVML query is an input. A getter is an `Option` (`None` means its
  status was not `NVML_SUCCESS`). A handle lookup is a `bool`, or an `Option`
  carrying that device's readings. The device count plus the per-index
  lookups form an `Option<seq<Probe>>`.
- The compile-time platform branch is the datatype `Monitor.Platform`:
  - `Windows` is the NVML branch;
  - `Apple` is the identity-only Metal branch;
  - `OtherPlatform` is a build with neither.

Modules:

- `Wrappers`: `Option`.
- `Integers`: the machine arithmetic the program depends on. This covers
  32-bit `int` and `unsigned int` conversions, written out as reductions
  modulo 2^32, and C's truncating division.
- `GpuInfoRecord`: the `GPUInfo` record and its member-initialiser defaults.
  The record holds identity, telemetry and tuning target together.
- `Telemetry`: `updateGPUInfo`. It holds the vendor readings, the unit
  conversions (bytes to MB, milliwatts to W) and the rule that keeps the last
  good value.
- `Monitor`: `initializeNVML`, `detectGPUs` (as a function and as the program's
  loop), `updateAllGPUs` and `applyGPUSettings`. The writes that apply issues
  are returned as data, in order.
- `Tuning`: the selection check of the monitoring and tuning panels, staging
  of targets through the sliders, and "Reset to Default".
- `History`: the 100-slot circular buffer with a modular write offset, and
  the cyclic read the plot performs starting at that offset.
- `Graphs`: the three histories of the graph panel. Like the program's, they are
  shared by all devices.

The model follows the code as written. In particular:

- The power limit sent by apply is the truncated quotient
  `target * baseline / 100`, not a rounded one.
- Clock targets are absolute clock values, not offsets. The clock write is
  gated only on the core target being positive.
- History is one buffer shared across devices, not one per device.
  `Graphs.HistoryMixesDevices` states the consequence.
- Apply returns one boolean. It is true whenever the guards pass, whatever the
  setters report. There is no per-field outcome.
- Staged targets are not clamped by the core. Only the slider widgets bound
  them.
- The periodic refresh addresses devices by list position. After detection
  skipped an index whose handle lookup failed, a record is refreshed with the
  readings of a different device. `Monitor.RefreshAfterSkippedIndex` shows
  this on a two-index example.
- Apply has the same mix-up. It writes to the handle of vendor index
  `gpu_index`, but takes the targets and the power baseline from list position
  `gpu_index`. After a skipped index, one device's targets, scaled by that
  device's power limit, are written to another device.
  `Monitor.ApplyAfterSkippedIndex` shows this, and `ApplyOutcome.device` names
  the vendor index written to.

## Model

| member | source | states |
|---|---|---|
| GpuInfoRecord.NewRecord | main.cpp:34-55 | A fresh record has empty identity, is not marked NVIDIA, has all telemetry 0, has clock targets 0, power target 100 and fan curve 30/40/50/70/85 |
| Integers.Int32Of | main.cpp:139-141 | Storing an unsigned reading into an `int` field yields a 32-bit value congruent to it modulo 2^32, and equal to it when it fits |
| Integers.Uint32Of | main.cpp:211-212 | Passing a value as `unsigned int` reduces it modulo 2^32, leaving in-range values unchanged |
| Integers.CDiv | main.cpp:211 | Integer division truncates toward zero: the quotient times the divisor lies within one divisor of the dividend, on the dividend's side of zero |
| Integers.NegativeBecomesLarge | main.cpp:217 | A negative clock target handed to the unsigned clock setter arrives as a value of 2^31 or more |
| Telemetry.BytesToMB | main.cpp:147-148 | Memory is stored in whole MB: the largest count of 1024*1024-byte units not above the byte value |
| Telemetry.MilliwattsToWatts | main.cpp:161-167 | Power is stored in whole watts: the largest count of 1000 mW not above the milliwatt value |
| Telemetry.Keep | main.cpp:139-142 | A field takes the read value, stored as a 32-bit int, when its getter succeeded, and keeps its previous value when it failed |
| Telemetry.UpdateInfo | main.cpp:132-185 | Nothing changes when the library is not active. Otherwise each telemetry field takes its converted reading when its getter succeeded and keeps its previous value otherwise. Identity and all targets are never touched |
| Telemetry.AllReadsFailedKeepsRecord | main.cpp:138-183 | A refresh in which every getter fails leaves the record exactly as it was |
| Telemetry.UpdateIdempotent | main.cpp:132-185 | Refreshing twice with the same readings equals refreshing once |
| Telemetry.TemperatureSurvivesFailedPoll | main.cpp:139-142 | A temperature read at one poll is still stored after the next poll's temperature read fails |
| Telemetry.MemoryStoredInMB | main.cpp:145-149 | When the memory query succeeds, used and total are the truncated MB counts of the byte values, without wrap-around below 2^31 MB |
| Telemetry.PowerStoredInWatts | main.cpp:158-168 | Power usage and power limit are the truncated watt counts of the milliwatt readings |
| Monitor.InitializeNvml | main.cpp:76-86 | The library counts as initialised exactly when the build uses it and its init call succeeded |
| Monitor.EnumeratedRecord | main.cpp:101-114 | A detected device's record carries the queried name and driver version, is marked NVIDIA and starts with the initial targets. Its telemetry is the first poll's converted readings, and a field whose getter failed stays 0 |
| Monitor.Enumerate | main.cpp:97-117 | At most one record per index; every record is marked NVIDIA and carries the initial targets |
| Monitor.FoundIndices | main.cpp:97-101 | The successful indices are listed in strictly increasing order, each below the device count, and none is missed |
| Monitor.EnumerateFollowsFoundIndices | main.cpp:97-117 | The rebuilt list has one record per index whose handle lookup succeeded, in index order; failed indices are skipped |
| Monitor.EnumerateCount | main.cpp:97-117 | If every lookup fails the list is empty; if every lookup succeeds there is one record per device counted |
| Monitor.EnumerateLoop | main.cpp:97-117 | The index loop that appends a record on each successful lookup builds exactly the enumerated list |
| Monitor.DetectGpus | main.cpp:88-130 | The list is rebuilt from empty. It stays empty when NVML is uninitialised or the count query fails. Otherwise it holds one record per successful index in order. The Apple branch lists at most the Metal default device, unmarked. Every record carries fresh targets |
| Monitor.NewMonitor | main.cpp:63-66 | The constructor initialises, then detects. A Windows build whose init failed starts empty; one whose init succeeded starts with the enumerated list; the Apple branch lists at most the Metal default device |
| Monitor.DegradedModeIsInert | main.cpp:76-86 | After a failed init the monitor lists no devices, a refresh changes nothing and every apply returns false without writing |
| Monitor.UpdateAllGpus | main.cpp:187-198 | The list length, identities and targets never change. Nothing changes when inactive. An index whose handle lookup failed keeps its record; the others are refreshed from their readings |
| Monitor.UpdateAllWithoutHandles | main.cpp:191-196 | A refresh in which no handle lookup succeeds leaves the monitor unchanged |
| Monitor.RefreshAfterSkippedIndex | main.cpp:187-198 | When index 0 failed at detection and index 1 was listed, the refresh stores vendor index 0's temperature in index 1's record |
| Monitor.RefreshesKeepDeviceList | main.cpp:187-198 | Any number of periodic refreshes keep the device list's length, order, identities and staged targets |
| Monitor.PowerLimitMilliwatts | main.cpp:210-212 | The power value sent is a 32-bit unsigned quantity |
| Monitor.ApplyGpuSettings | main.cpp:200-223 | Apply succeeds exactly when NVML is active, the index is within the list (negative counts as out of range) and the handle lookup succeeds. On failure nothing is written and no device is addressed. On success the writes go to vendor index `gpu_index`. The power write comes first, iff the power target is positive, with the same value as min and max, scaled from the baseline at list position `gpu_index`. The clock write comes last, iff the core target is positive, memory target then core target |
| Monitor.ApplyAfterSkippedIndex | main.cpp:200-212 | When vendor index 0 failed at detection, applying the 110 percent target of device B (300 W, list position 0) sends 330000 mW to vendor index 0 |
| Monitor.ApplyDependsOnlyOnTargets | main.cpp:209-218 | Only the clock and power targets of the passed settings matter: the fan curve is never sent, and the passed telemetry is ignored in favour of the stored baseline |
| Monitor.PowerWriteIsTruncatedPercentage | main.cpp:210-212 | In the realistic range the power write is a whole number of watts times 1000, and those watts are the percentage of the baseline truncated |
| Monitor.PowerWriteExample | main.cpp:211-212 | 110 percent of a 250 W baseline is sent as 275000 mW |
| Monitor.PowerWriteTruncates | main.cpp:211-212 | 50 percent of 333 W is sent as 166000 mW: the quotient is truncated, not rounded |
| Tuning.ResetFanCurve | main.cpp:545-547 | The reset fan curve has five points, 30, 45, 60, 75, 90 |
| Tuning.ResetToDefault | main.cpp:541-548 | Reset sets the clock targets to the current clock readings, the power target to 100 and fan point i to 30 + 15i; identity and telemetry are unchanged |
| Tuning.StageTargets | main.cpp:501-522 | The sliders set exactly the four target fields to the staged values, keep the fan curve at five points, and leave identity and telemetry unchanged |
| Tuning.ResetDiscardsStagedEdits | main.cpp:541-548 | Reset after any staged edits gives the same record as reset without them |
| Tuning.ResetIdempotent | main.cpp:541-548 | Pressing reset twice equals pressing it once |
| Tuning.ResetCurveRisesWithinRange | main.cpp:545-547 | The reset fan curve is strictly increasing and within the 0..100 slider range |
| Tuning.ResetDiffersFromInitialCurve | main.cpp:53-54 | The reset curve differs from the construction curve, while the power target agrees at 100 |
| Tuning.ResolveSelection | main.cpp:379-404 | An empty list returns before any indexing. Otherwise the resolved index is valid: a valid selection is kept, and an out-of-range or negative one becomes 0 |
| Tuning.SelectionAfter | main.cpp:485 | After a panel pass on a non-empty list the selection is the old one if it was valid and 0 otherwise; on an empty list it is left untouched |
| Tuning.SelectionStable | main.cpp:403-404 | Resolving an already resolved selection changes nothing |
| Tuning.ResetSelected | main.cpp:478-548 | The reset button changes only the selected record, resolving the selection first. The list length, identities and telemetry are unchanged, and an empty list is untouched |
| Tuning.StageSelected | main.cpp:485-522 | After resolving the selection, the selected record takes the staged targets and every other record is unchanged; records stay well-formed |
| Tuning.StagingIsPerDevice | main.cpp:485-522 | Staging on one device and then on another leaves the first device's staged targets intact |
| History.Empty | main.cpp:752-756 | A fresh history has 100 slots holding the fill value and offset 0 |
| History.Push | main.cpp:763-768 | A push writes the value at the offset, keeps every other slot, and advances the offset to (offset + 1) mod 100 |
| History.View | main.cpp:775-776 | The plot reads 100 values, position k being the slot at (offset + k) mod 100 |
| History.ViewIsRotation | main.cpp:775-776 | The plot is the buffer rotated to start at the offset, a permutation of the slots |
| History.PushShiftsView | main.cpp:763-776 | A push drops the oldest plotted value and appends the new one |
| History.PushAll | main.cpp:752-768 | Any run of pushes, oldest first, keeps the buffer at 100 slots with the offset in range |
| History.ViewAfterPushes | main.cpp:752-776 | After any pushes the plot is the old plot followed by the pushed values, cut to the last 100 |
| History.OffsetCountsPushes | main.cpp:756-768 | The offset equals the number of pushes modulo 100 |
| History.LastWindowOldestFirst | main.cpp:752-776 | After 100 or more pushes the plot shows exactly the last 100 values, oldest first |
| History.PartialWindow | main.cpp:752-776 | Before 100 pushes the plot shows the initial fill followed by every value pushed so far |
| Graphs.InitialGraphs | main.cpp:752-756 | The three graph histories start with every slot 0 and the single shared offset at 0 |
| Graphs.RecordFrame | main.cpp:758-769 | A frame with a valid selection appends the selected device's temperature, utilisation and power to the three plots and advances the shared offset; otherwise nothing is recorded |
| Graphs.HistoryMixesDevices | main.cpp:752-768 | Histories are shared: frames showing device a then device b end the temperature plot with a's reading then b's |

## Left out

- Window, OpenGL, ImGui setup, styling, widgets, popups, menus and the About panel (main.cpp:244-375, 571-749, 797-911). They are presentation only. The menu's "Refresh GPUs" is `Monitor.DetectGpus`.
- The real NVML, Metal and IOKit calls. Each result is an input of the model. `nvmlShutdown` in the destructor has no effect on the modelled state.
- Wall-clock cadence (main.cpp:615-619). A periodic refresh is an explicit step, `Monitor.UpdateAllGpus`, and `Monitor.RefreshAll` chains several.
- Floating point. The memory-percentage history (main.cpp:766), the power warning at 90 percent of the limit (main.cpp:422), the temperature colour thresholds and the progress-bar ratios are not modelled. The histories hold the integer readings, not `float` copies of them.
- Graphs.RecordFrame: does not record the fourth, memory-percentage history, because its value is a floating-point ratio.
- The "Target: W" label (main.cpp:514) is display only.
- Slider bounds (power 50..120, fan 0..100, clocks within 200 or 500 MHz of the reading, main.cpp:501-522). Only the widgets enforce them. `Tuning.StageTargets` accepts any values.
- Monitor.ApplyGpuSettings: does not model the signed `int` overflow of `target_power_limit * power_limit`, which is undefined behaviour in C++. The product is taken as a mathematical integer before truncation and the unsigned conversions.
- Monitor.ApplyGpuSettings: the setters' status codes are not inputs, because the program discards them.
- Monitor.DetectGpus: the name and driver-version queries are unchecked in the program. The model takes whatever strings they produced as inputs. Truncation to the NVML buffer sizes is not modelled.
- Telemetry.UpdateInfo: only the one value the power-limit constraints query leaves in its shared output variable is modelled. The program passes the same variable as minimum and maximum, so which of the two it ends up holding is the vendor library's choice.
- Process exit and the exception path in `main` (main.cpp:269-281, 915-925).
