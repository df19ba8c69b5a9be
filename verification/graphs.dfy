/**
 * The performance-graph panel's state: three histories (temperature, GPU
 * utilisation, power draw) shared by every device, each fed once per
 * frame with the selected device's current value.
 */
module Graphs {
  import opened GpuInfoRecord
  import opened History

  datatype GraphState = GraphState(temperature: Ring<int>, gpuUtilization: Ring<int>, powerUsage: Ring<int>)

  /**
   * Each history is a valid ring, and the three advance together: the program
   * keeps a single write offset for all of them.
   */
  predicate ValidGraphs(g: GraphState) {
    && Valid(g.temperature) && Valid(g.gpuUtilization) && Valid(g.powerUsage)
    && g.temperature.offset == g.gpuUtilization.offset == g.powerUsage.offset
  }

  /** The histories at program start: all zeros, offset 0. */
  function InitialGraphs(): (g: GraphState)
    ensures ValidGraphs(g) && g.temperature.offset == 0
    ensures forall k :: 0 <= k < Capacity ==>
      && g.temperature.slots[k] == 0 && g.gpuUtilization.slots[k] == 0 && g.powerUsage.slots[k] == 0
  {
    GraphState(Empty(0), Empty(0), Empty(0))
  }

  /**
   * One frame of the graph panel: when the list is non-empty and the
   * selection indexes it (a negative selection fails the unsigned comparison),
   * the selected device's values are pushed; otherwise nothing is recorded.
   */
  function RecordFrame(g: GraphState, gpus: seq<GpuInfo>, selected: int): (r: GraphState)
    requires ValidGraphs(g)
    ensures ValidGraphs(r)
    ensures !(0 <= selected < |gpus|) ==> r == g
    ensures 0 <= selected < |gpus| ==> r.temperature.offset == (g.temperature.offset + 1) % Capacity
    ensures 0 <= selected < |gpus| ==>
      && View(r.temperature) == View(g.temperature)[1..] + [gpus[selected].temperature]
      && View(r.gpuUtilization) == View(g.gpuUtilization)[1..] + [gpus[selected].gpuUtilization]
      && View(r.powerUsage) == View(g.powerUsage)[1..] + [gpus[selected].powerUsage]
  {
    if 0 <= selected < |gpus| then
      var gpu := gpus[selected];
      PushShiftsView(g.temperature, gpu.temperature);
      PushShiftsView(g.gpuUtilization, gpu.gpuUtilization);
      PushShiftsView(g.powerUsage, gpu.powerUsage);
      GraphState(Push(g.temperature, gpu.temperature),
             Push(g.gpuUtilization, gpu.gpuUtilization),
             Push(g.powerUsage, gpu.powerUsage))
    else g
  }

  /**
   * The histories are not kept per device: after a frame showing device `a`
   * and a frame showing device `b`, the temperature plot ends with `a`'s
   * reading followed by `b`'s.
   */
  lemma HistoryMixesDevices(g: GraphState, gpus: seq<GpuInfo>, a: nat, b: nat)
    requires ValidGraphs(g) && a < |gpus| && b < |gpus|
    ensures var v := View(RecordFrame(RecordFrame(g, gpus, a), gpus, b).temperature);
      v[Capacity - 2] == gpus[a].temperature && v[Capacity - 1] == gpus[b].temperature
  {
    var g1 := RecordFrame(g, gpus, a);
    var v1 := View(g1.temperature);
    assert v1[Capacity - 1] == gpus[a].temperature;
  }
}
