/**
 * The state logic of the tuning and monitoring panels: which device is
 * selected, staging of targets through the sliders, and the
 * "Reset to Default" button.
 */
module Tuning {
  import opened Wrappers
  import opened GpuInfoRecord

  /** Fan speed, in percent, of the reset curve's first point. */
  const ResetFanBase: int := 30

  /** Fan-speed step, in percent, between consecutive points of the reset curve. */
  const ResetFanStep: int := 15

  /** The power-limit percentage the reset restores. */
  const ResetPowerTarget: int := 100

  /** The reset fan curve: point `i` is 30 + 15 * i. */
  function ResetFanCurve(): (c: seq<int>)
    ensures |c| == FanCurvePoints
    ensures c == [30, 45, 60, 75, 90]
  {
    seq(FanCurvePoints, i => ResetFanBase + i * ResetFanStep)
  }

  /**
   * "Reset to Default": the clock targets become the current clock readings,
   * the power target 100 percent, and the fan curve the fixed ramp. Nothing
   * else in the record changes.
   */
  function ResetToDefault(g: GpuInfo): (r: GpuInfo)
    ensures SameIdentity(r, g) && SameTelemetry(r, g)
    ensures r.targetCoreClock == g.coreClock && r.targetMemoryClock == g.memoryClock
    ensures r.targetPowerLimit == 100
    ensures |r.targetFanCurve| == FanCurvePoints && WellFormed(r)
    ensures forall i :: 0 <= i < |r.targetFanCurve| ==> r.targetFanCurve[i] == 30 + 15 * i
  {
    g.(targetCoreClock := g.coreClock,
       targetMemoryClock := g.memoryClock,
       targetPowerLimit := ResetPowerTarget,
       targetFanCurve := ResetFanCurve())
  }

  /**
   * What the tuning sliders write into the selected record: the target fields
   * only. The fan curve is the record's five-element array, so a staged curve
   * has five points.
   */
  function StageTargets(g: GpuInfo, coreClock: int, memoryClock: int, powerPercent: int, fanCurve: seq<int>): (r: GpuInfo)
    requires |fanCurve| == FanCurvePoints
    ensures WellFormed(r)
    ensures SameIdentity(r, g) && SameTelemetry(r, g)
    ensures r.targetCoreClock == coreClock && r.targetMemoryClock == memoryClock
    ensures r.targetPowerLimit == powerPercent && r.targetFanCurve == fanCurve
  {
    g.(targetCoreClock := coreClock, targetMemoryClock := memoryClock,
       targetPowerLimit := powerPercent, targetFanCurve := fanCurve)
  }

  /** Reset discards any staged edit: the result depends only on identity and telemetry. */
  lemma ResetDiscardsStagedEdits(g: GpuInfo, core: int, mem: int, power: int, fan: seq<int>)
    requires |fan| == FanCurvePoints
    ensures ResetToDefault(StageTargets(g, core, mem, power, fan)) == ResetToDefault(g)
  {
  }

  /** Pressing reset twice is the same as pressing it once. */
  lemma ResetIdempotent(g: GpuInfo)
    ensures ResetToDefault(ResetToDefault(g)) == ResetToDefault(g)
  {
  }

  /** The reset curve is strictly rising and stays within the 0..100 percent slider range. */
  lemma ResetCurveRisesWithinRange(g: GpuInfo)
    ensures var c := ResetToDefault(g).targetFanCurve;
      && (forall i, j :: 0 <= i < j < |c| ==> c[i] < c[j])
      && (forall i :: 0 <= i < |c| ==> 0 <= c[i] <= 100)
  {
  }

  /**
   * The reset defaults differ from the construction defaults: the fan
   * curve is 30/45/60/75/90 rather than 30/40/50/70/85.
   */
  lemma ResetDiffersFromInitialCurve(g: GpuInfo)
    ensures ResetToDefault(g).targetFanCurve != InitialFanCurve
    ensures ResetToDefault(g).targetPowerLimit == InitialPowerTarget
  {
    assert ResetToDefault(g).targetFanCurve[1] == 45;
  }

  /**
   * The selection check of the monitoring and tuning panels. An empty list
   * returns early and leaves the selection untouched (`None`); otherwise a
   * selection that is not below the count (a negative one included: the
   * comparison is against an unsigned size) is reset to 0.
   */
  function ResolveSelection(count: nat, selected: int): (r: Option<nat>)
    ensures r.None? <==> count == 0
    ensures r.Some? ==> r.value < count
    ensures r.Some? && 0 <= selected < count ==> r.value == selected
    ensures r.Some? && !(0 <= selected < count) ==> r.value == 0
  {
    if count == 0 then None
    else if 0 <= selected < count then Some(selected)
    else Some(0)
  }

  /** The selection after one pass through a panel. */
  function SelectionAfter(count: nat, selected: int): (s: int)
    ensures count > 0 ==> 0 <= s < count
    ensures count > 0 ==> s == (if 0 <= selected < count then selected else 0)
    ensures count == 0 ==> s == selected
  {
    match ResolveSelection(count, selected)
    case Some(i) => i
    case None => selected
  }

  /** A valid selection is a fixed point: resolving again changes nothing. */
  lemma SelectionStable(count: nat, selected: int)
    ensures SelectionAfter(count, SelectionAfter(count, selected)) == SelectionAfter(count, selected)
  {
  }

  /**
   * The reset button in the tuning panel: with no devices nothing happens;
   * otherwise the selection is resolved and only the selected record is reset.
   */
  function ResetSelected(gpus: seq<GpuInfo>, selected: int): (r: (seq<GpuInfo>, int))
    ensures |r.0| == |gpus|
    ensures r.1 == SelectionAfter(|gpus|, selected)
    ensures gpus == [] ==> r.0 == []
    ensures gpus != [] ==> r.0[r.1] == ResetToDefault(gpus[r.1])
    ensures forall i :: 0 <= i < |gpus| && i != r.1 ==> r.0[i] == gpus[i]
    ensures forall i :: 0 <= i < |gpus| ==> SameIdentity(r.0[i], gpus[i]) && SameTelemetry(r.0[i], gpus[i])
  {
    match ResolveSelection(|gpus|, selected)
    case None => (gpus, selected)
    case Some(i) => (gpus[i := ResetToDefault(gpus[i])], i)
  }

  /**
   * The sliders of the tuning panel: the selection is resolved and only the
   * selected record's targets change.
   */
  function StageSelected(gpus: seq<GpuInfo>, selected: int, core: int, mem: int, power: int, fan: seq<int>): (r: (seq<GpuInfo>, int))
    requires |fan| == FanCurvePoints
    ensures |r.0| == |gpus|
    ensures r.1 == SelectionAfter(|gpus|, selected)
    ensures gpus != [] ==> r.0[r.1] == StageTargets(gpus[r.1], core, mem, power, fan)
    ensures forall i :: 0 <= i < |gpus| && WellFormed(gpus[i]) ==> WellFormed(r.0[i])
    ensures forall i :: 0 <= i < |gpus| && i != r.1 ==> r.0[i] == gpus[i]
    ensures forall i :: 0 <= i < |gpus| ==> SameIdentity(r.0[i], gpus[i]) && SameTelemetry(r.0[i], gpus[i])
  {
    match ResolveSelection(|gpus|, selected)
    case None => (gpus, selected)
    case Some(i) => (gpus[i := StageTargets(gpus[i], core, mem, power, fan)], i)
  }

  /**
   * Staging targets for one device and then switching the selection to another
   * and staging there leaves the first device's targets as staged.
   */
  lemma StagingIsPerDevice(gpus: seq<GpuInfo>, a: nat, b: nat, core: int, mem: int, power: int, fan: seq<int>,
                           core2: int, mem2: int, power2: int, fan2: seq<int>)
    requires a < |gpus| && b < |gpus| && a != b
    requires |fan| == FanCurvePoints && |fan2| == FanCurvePoints
    ensures var (afterA, _) := StageSelected(gpus, a, core, mem, power, fan);
      var (afterB, _) := StageSelected(afterA, b, core2, mem2, power2, fan2);
      && afterB[a].targetCoreClock == core && afterB[a].targetMemoryClock == mem
      && afterB[a].targetPowerLimit == power && afterB[a].targetFanCurve == fan
      && afterB[b].targetCoreClock == core2
  {
  }
}
