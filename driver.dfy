/**
 * The sequential control flow of `stress_gpu` for one device: size and
 * allocate the filler, give up if that allocation fails, create the two
 * compute buffers, then multiply until the deadline passes.
 *
 * The device library is outside the model: whether each allocation succeeds,
 * and which matrix product (if any) raises, are inputs.  The clock is the sequence of elapsed times the loop would
 * observe, one per iteration; the real loop can run forever, so a run whose
 * readings are used up without reaching the deadline ends as `ClockExhausted`.
 */
module StressDriver {
  import opened Wrappers
  import opened Sizing

  /**
   * The compute loop's exit test: only a positive duration ends the loop, and
   * only once the elapsed time is strictly greater than it.
   */
  predicate ShouldExit(duration: int, elapsed: real)
    ensures duration <= 0 ==> !ShouldExit(duration, elapsed)
    ensures elapsed <= duration as real ==> !ShouldExit(duration, elapsed)
    ensures 0 < duration && (duration + 1) as real <= elapsed ==> ShouldExit(duration, elapsed)
  {
    duration > 0 && elapsed > duration as real
  }

  /** Once the test fires, it fires for every later (larger) elapsed time. */
  lemma ExitPersists(duration: int, e1: real, e2: real)
    requires ShouldExit(duration, e1) && e1 <= e2
    ensures ShouldExit(duration, e2)
  {
  }

  datatype DriverEnd =
    | FillerAllocFailed    // the filler allocation raised: return before the compute phase
    | BufferAllocFailed    // creating a compute buffer raised: caught by the outer handler
    | ComputeFailed        // a matrix product raised: caught by the outer handler
    | DeadlineReached      // the exit test fired
    | ClockExhausted       // the model's clock readings ran out; the real loop would go on

  datatype DriverRun = DriverRun(
    plan: FillerPlan,       // the filler that was sized (and attempted when `Filler?`)
    buffersCreated: bool,   // whether the two compute buffers exist
    matmuls: nat,           // number of matrix products that completed
    end: DriverEnd)

  /**
   * One device's stress run.  `mmFailsAt` is the loop iteration (counted from
   * 0) whose matrix product raises, if any.
   */
  method StressGpu(totalMemory: nat, targetGb: Option<real>, duration: int,
                   fillerAllocOk: bool, bufferAllocOk: bool, mmFailsAt: Option<nat>, clock: seq<real>)
    returns (run: DriverRun)
    ensures run.plan == PlanFiller(totalMemory, targetGb)
    // a failed filler allocation ends the run before any compute buffer or product
    ensures run.end == FillerAllocFailed <==> run.plan.Filler? && !fillerAllocOk
    ensures run.end == FillerAllocFailed ==> !run.buffersCreated && run.matmuls == 0
    ensures run.buffersCreated <==> !(run.plan.Filler? && !fillerAllocOk) && bufferAllocOk
    ensures run.end == BufferAllocFailed <==> !(run.plan.Filler? && !fillerAllocOk) && !bufferAllocOk
    ensures !run.buffersCreated ==> run.matmuls == 0
    // the loop runs until the first reading that passes the exit test
    ensures run.matmuls <= |clock|
    ensures forall j :: 0 <= j < run.matmuls ==> !ShouldExit(duration, clock[j])
    ensures run.end == DeadlineReached ==> run.matmuls < |clock| && ShouldExit(duration, clock[run.matmuls])
    ensures run.buffersCreated ==>
      run.end == DeadlineReached || run.end == ComputeFailed || (run.end == ClockExhausted && run.matmuls == |clock|)
    // a product that raises ends the run there; otherwise no product before the end raised
    ensures run.end == ComputeFailed ==>
      run.buffersCreated && mmFailsAt == Some(run.matmuls) && run.matmuls < |clock| && !ShouldExit(duration, clock[run.matmuls])
    ensures run.end != ComputeFailed && mmFailsAt.Some? ==> run.matmuls <= mmFailsAt.value
    ensures duration <= 0 ==> run.end != DeadlineReached
  {
    var plan := PlanFiller(totalMemory, targetGb);
    if plan.Filler? && !fillerAllocOk {
      return DriverRun(plan, false, 0, FillerAllocFailed);
    }
    if !bufferAllocOk {
      return DriverRun(plan, false, 0, BufferAllocFailed);
    }
    var i := 0;
    while i < |clock|
      invariant 0 <= i <= |clock|
      invariant forall j :: 0 <= j < i ==> !ShouldExit(duration, clock[j])
      invariant mmFailsAt.Some? ==> i <= mmFailsAt.value
    {
      if ShouldExit(duration, clock[i]) {
        return DriverRun(plan, true, i, DeadlineReached);
      }
      // one matrix product per iteration
      if mmFailsAt == Some(i) {
        return DriverRun(plan, true, i, ComputeFailed);
      }
      i := i + 1;
    }
    return DriverRun(plan, true, i, ClockExhausted);
  }
}
