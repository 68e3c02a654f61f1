/**
 * The autoscaling decision of the resource monitor: for one container, one
 * reading of memory and CPU usage (in percent) grows or shrinks each dimension
 * by the language's increment, clamped to the language's bounds.
 */
module Autoscale {
  import opened Wrappers
  import opened Types
  import opened LangConfig

  /** One stats reading, as percentages of the container's limits. */
  datatype Usage = Usage(memoryPercent: real, cpuPercent: real)

  function Min(a: int, b: int): int { if a <= b then a else b }
  function Max(a: int, b: int): int { if a >= b then a else b }

  /** The rule of one dimension: grow above the high threshold while below
      `hi`, shrink below the low threshold while above `lo`; None when neither
      fires. */
  function Step(percent: real, current: int, increment: int, lo: int, hi: int): (r: Option<int>)
    ensures r.Some? <==> (percent > HighThreshold && current < hi) || (percent < LowThreshold && current > lo)
    ensures r.Some? && percent > HighThreshold ==>
      r.value == (if current + increment <= hi then current + increment else hi)
    ensures r.Some? && percent > HighThreshold && increment > 0 ==> current < r.value <= hi
    ensures r.Some? && percent <= HighThreshold ==>
      r.value == (if current - increment >= lo then current - increment else lo)
    ensures r.Some? && percent <= HighThreshold && increment > 0 ==> lo <= r.value < current
  {
    if percent > HighThreshold && current < hi then Some(Min(current + increment, hi))
    else if percent < LowThreshold && current > lo then Some(Max(current - increment, lo))
    else None
  }

  /** The record stays within the language's bounds. */
  predicate InBounds(r: ContainerResources, o: LangOptions) {
    o.minMem <= r.currentMemory <= o.maxMem && o.minCpu <= r.currentCpu <= o.maxCpu
  }

  function MemoryStep(cur: ContainerResources, o: LangOptions, u: Usage): Option<int> {
    Step(u.memoryPercent, cur.currentMemory, o.incrementalMem, o.minMem, o.maxMem)
  }

  function CpuStep(cur: ContainerResources, o: LangOptions, u: Usage): Option<int> {
    Step(u.cpuPercent, cur.currentCpu, o.incrementalCpu, o.minCpu, o.maxCpu)
  }

  /** The decision as the monitor computes it: a dimension whose rule did not
      fire is given the value 0, and that 0 is what is sent and stored when the
      other dimension changes. None when no rule fired. */
  function ScaleAsWritten(cur: ContainerResources, o: LangOptions, u: Usage): (r: Option<ContainerResources>)
    ensures r.None? <==> MemoryStep(cur, o, u).None? && CpuStep(cur, o, u).None?
    ensures r.Some? && MemoryStep(cur, o, u).None? ==> r.value.currentMemory == 0
    ensures r.Some? && CpuStep(cur, o, u).None? ==> r.value.currentCpu == 0
  {
    var m := MemoryStep(cur, o, u);
    var c := CpuStep(cur, o, u);
    if m.None? && c.None? then None
    else Some(ContainerResources(
      if m.Some? then m.value else 0,
      if c.Some? then c.value else 0))
  }

  /** The decision with the evident intent: a dimension whose rule did not
      fire keeps its current value. */
  function Scale(cur: ContainerResources, o: LangOptions, u: Usage): (r: Option<ContainerResources>)
    ensures r.None? <==> MemoryStep(cur, o, u).None? && CpuStep(cur, o, u).None?
    ensures r.Some? && MemoryStep(cur, o, u).None? ==> r.value.currentMemory == cur.currentMemory
    ensures r.Some? && CpuStep(cur, o, u).None? ==> r.value.currentCpu == cur.currentCpu
  {
    var m := MemoryStep(cur, o, u);
    var c := CpuStep(cur, o, u);
    if m.None? && c.None? then None
    else Some(ContainerResources(
      if m.Some? then m.value else cur.currentMemory,
      if c.Some? then c.value else cur.currentCpu))
  }

  /** The two decisions fire together and agree on every dimension that fired. */
  lemma ScaleAgreesWhereRulesFire(cur: ContainerResources, o: LangOptions, u: Usage)
    ensures Scale(cur, o, u).Some? <==> ScaleAsWritten(cur, o, u).Some?
    ensures MemoryStep(cur, o, u).Some? ==>
      Scale(cur, o, u).value.currentMemory == ScaleAsWritten(cur, o, u).value.currentMemory
        == MemoryStep(cur, o, u).value
    ensures CpuStep(cur, o, u).Some? ==>
      Scale(cur, o, u).value.currentCpu == ScaleAsWritten(cur, o, u).value.currentCpu
        == CpuStep(cur, o, u).value
  {
  }

  /** A record within bounds stays within bounds under the corrected decision. */
  lemma ScaleKeepsBounds(cur: ContainerResources, o: LangOptions, u: Usage)
    requires WellFormed(o) && InBounds(cur, o)
    ensures Scale(cur, o, u).Some? ==> InBounds(Scale(cur, o, u).value, o)
  {
  }

  /** As written, a CPU-only change records memory 0, below every language's
      minimum: a js container at its starting record, at 50% memory and 95% CPU. */
  lemma ScaleAsWrittenDropsMemory()
    ensures var js := LangImages["js"];
      var cur := ContainerResources(js.minMem, js.minCpu);
      var u := Usage(50.0, 95.0);
      InBounds(cur, js)
      && ScaleAsWritten(cur, js, u) == Some(ContainerResources(0, 2))
      && !InBounds(ScaleAsWritten(cur, js, u).value, js)
      && Scale(cur, js, u) == Some(ContainerResources(js.minMem, 2))
  {
  }

  /** After that recorded 0, a high memory reading "grows" memory to a single
      increment, which is below the starting size the engine still enforces. */
  lemma ScaleAsWrittenShrinksOnGrowth()
    ensures var js := LangImages["js"];
      ScaleAsWritten(ContainerResources(0, 2), js, Usage(95.0, 50.0))
        == Some(ContainerResources(js.incrementalMem, 0))
      && js.incrementalMem < js.minMem
  {
  }

  /** The limits an update request carries for a new memory and CPU value. */
  function UpdateLimits(memory: int, cpu: int): (l: Limits)
    ensures l.cpuPeriod == CpuPeriod && 2 * l.cpuQuota == cpu * CpuPeriod
    ensures l.memory == memory && l.memorySwap == 2 * memory
  {
    Limits(memory, memory * 2, CpuPeriod, cpu * CpuUnit)
  }
}
