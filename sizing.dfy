/**
 * The filler-sizing policy of `stress_gpu`: keep 1 GiB of the device free,
 * optionally cap the amount to fill at a target given in GB, set aside
 * 2 GiB for the compute buffers, and fill the rest with 4-byte elements.
 * Python integers are unbounded, so plain `int` arithmetic is exact here.
 */
module Sizing {
  import opened Wrappers

  const GiB: int := 1024 * 1024 * 1024
  /** Headroom left free on the device. */
  const Reserved: int := 1 * GiB
  /** Bytes set aside for the compute buffers. */
  const ComputeBufferSize: int := 2 * GiB
  /** Size of one float32 element of the filler tensor. */
  const ElementSize: int := 4

  /** Python's `int(x)` on a float: truncation toward zero. */
  function TruncToInt(x: real): (n: int)
    ensures 0.0 <= x ==> n as real <= x < n as real + 1.0
    ensures x < 0.0 ==> n as real - 1.0 < x <= n as real
  {
    if x >= 0.0 then x.Floor else -((-x).Floor)
  }

  /**
   * The cap in bytes that a `--target-vram` value imposes, if any.  The value
   * is the float given in GB; absent or zero (Python falsy) means no cap.
   */
  function TargetCap(targetGb: Option<real>): (cap: Option<int>)
    ensures cap.Some? <==> targetGb.Some? && targetGb.value != 0.0
    ensures cap.Some? && targetGb.value > 0.0 ==>
      cap.value as real <= targetGb.value * GiB as real < cap.value as real + 1.0
  {
    if targetGb.Some? && targetGb.value != 0.0 then Some(TruncToInt(targetGb.value * GiB as real))
    else None
  }

  /** `alloc_memory`: total memory less the headroom, capped by the target when one is set. */
  function AllocMemory(totalMemory: nat, targetGb: Option<real>): (alloc: int)
    ensures alloc <= totalMemory - Reserved
    ensures TargetCap(targetGb).Some? ==> alloc <= TargetCap(targetGb).value
    ensures alloc == totalMemory - Reserved || (TargetCap(targetGb).Some? && alloc == TargetCap(targetGb).value)
    ensures TargetCap(targetGb).None? ==> alloc == totalMemory - Reserved
  {
    var alloc := totalMemory - Reserved;
    match TargetCap(targetGb)
    case None => alloc
    case Some(cap) => if cap < alloc then cap else alloc
  }

  /** The filler decision: no filler, or one of `size` bytes made of `elements` float32 values. */
  datatype FillerPlan = NoFiller | Filler(size: int, elements: nat)

  /**
   * `filler_size` and `num_elements`: a filler is planned exactly when the
   * amount to fill exceeds the compute-buffer allowance; its element count
   * covers the size rounded down to whole elements.
   */
  function PlanFiller(totalMemory: nat, targetGb: Option<real>): (plan: FillerPlan)
    ensures plan.Filler? <==> AllocMemory(totalMemory, targetGb) - ComputeBufferSize > 0
    ensures plan.Filler? ==> plan.size == AllocMemory(totalMemory, targetGb) - ComputeBufferSize
    ensures plan.Filler? ==> 0 < plan.size && ElementSize * plan.elements <= plan.size < ElementSize * plan.elements + ElementSize
  {
    var fillerSize := AllocMemory(totalMemory, targetGb) - ComputeBufferSize;
    if fillerSize > 0 then Filler(fillerSize, fillerSize / ElementSize) else NoFiller
  }

  /**
   * The filler together with the compute-buffer allowance never exceeds the
   * memory left after the headroom, nor a nonzero target.
   */
  lemma FillerFitsBudget(totalMemory: nat, targetGb: Option<real>)
    ensures var plan := PlanFiller(totalMemory, targetGb);
      plan.Filler? ==>
        && plan.size + ComputeBufferSize + Reserved <= totalMemory
        && (targetGb.Some? && targetGb.value > 0.0 ==> (plan.size + ComputeBufferSize) as real <= targetGb.value * GiB as real)
  {
  }

  /** Raising a positive target never shrinks the amount to fill. */
  lemma LargerTargetFillsMore(totalMemory: nat, t1: real, t2: real)
    requires 0.0 < t1 <= t2
    ensures AllocMemory(totalMemory, Some(t1)) <= AllocMemory(totalMemory, Some(t2))
  {
    assert t1 * GiB as real <= t2 * GiB as real;
  }

  /** A device of at most 3 GiB never gets a filler. */
  lemma SmallDeviceNoFiller(totalMemory: nat, targetGb: Option<real>)
    requires totalMemory <= Reserved + ComputeBufferSize
    ensures PlanFiller(totalMemory, targetGb) == NoFiller
  {
  }

  /** A target of zero is the same as no target. */
  lemma ZeroTargetIsNoTarget(totalMemory: nat)
    ensures PlanFiller(totalMemory, Some(0.0)) == PlanFiller(totalMemory, None)
  {
  }

  /** A negative target (accepted by the float argument) caps to a negative amount, so no filler. */
  lemma NegativeTargetNoFiller(totalMemory: nat, t: real)
    requires t < 0.0
    ensures PlanFiller(totalMemory, Some(t)) == NoFiller
  {
  }
}
