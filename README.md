# GPU stress test — a Dafny model of its deterministic core

`gpu_stress_test.py` fills every CUDA device with a filler tensor, runs
matrix products on it for a given duration and prints `nvidia-smi`
telemetry from a separate thread. Most of the file is GPU, subprocess and
thread plumbing. This project models the three pieces of it that are
deterministic, and proves what they promise:

- **Telemetry parsing** (`get_gpu_metrics`). The tool's output is stripped
  and split at newlines. Each line is split at commas and every field is
  stripped. A line with at least seven fields becomes one `DeviceMetrics`
  record (field 0 kept as text, fields 1–6 converted to numbers). Shorter
  lines are skipped. A field that does not convert makes the whole query
  yield `None`. The comma split is plain: it has no quoting, so this is not
  a CSV parser.
- **Filler sizing** (`stress_gpu`). 1 GiB is kept free. The amount to fill
  is optionally capped by `--target-vram`. 2 GiB is set aside for the
  compute buffers. A filler is made only if what is left is positive. Its
  element count is that size divided by 4, rounded down.
- **Driver control flow** (`stress_gpu`). The driver returns early when the
  filler allocation fails. Otherwise it creates the compute buffers and
  loops until `duration > 0 and elapsed > duration`.

Modules, one per concern:

- `Wrappers` (wrappers.dfy): `Option`.
- `Text` (text.dfy): Python's `str.split(sep)` and `str.strip()`, with `str.isspace()` as the whitespace set.
- `Telemetry` (telemetry.dfy): the parser, with the imperative loop `GetGpuMetrics` proved against the function `Metrics`.
- `Sizing` (sizing.dfy): the sizing arithmetic as functions.
- `StressDriver` (driver.dfy): the exit test and the per-device driver method.

External collaborators become inputs:

- the outcome of running `nvidia-smi` (`ToolResult`: missing, failed, or its standard output);
- Python's `float()` (the parameter `parseNum: string -> Option<N>`);
- the outcomes of the filler and compute-buffer allocations (booleans);
- the clock (a sequence of elapsed-time readings, one per loop iteration).

## Model

| member | source | states |
|---|---|---|
| `Text.Strip` | gpu_stress_test.py:32 | The result is the slice of the input between its leading and trailing whitespace runs. It starts and ends with non-whitespace. It is empty exactly when the input is all whitespace. |
| `Text.StripIdempotent` | gpu_stress_test.py:32 | Stripping an already stripped string changes nothing. |
| `Text.Split` | gpu_stress_test.py:32 | A split has exactly one more piece than the string has separators. No piece contains the separator. |
| `Text.JoinSplit` | gpu_stress_test.py:32 | Joining the pieces of a split with the separator gives back the original string. |
| `Text.SplitJoin` | gpu_stress_test.py:32 | Splitting a join of separator-free pieces gives back the pieces. |
| `Telemetry.FieldsShape` | gpu_stress_test.py:32 | A line has one more field than it has commas. No field contains a comma. Every field is empty or begins and ends with a non-whitespace character. |
| `Telemetry.Lines` | gpu_stress_test.py:28 | The lines contain no newline, and joining them with newlines gives the stripped output. |
| `Telemetry.ParseRecord` | gpu_stress_test.py:34-42 | A record exists exactly when all six numeric fields convert. Its index is field 0 unconverted. Its numeric fields are the conversions of fields 1–6 in order. Fields after the seventh play no part. |
| `Telemetry.ParseLines` | gpu_stress_test.py:30-43 | The append loop as a function: the records of a batch, or `None`. A successful parse never has more records than lines. |
| `Telemetry.Metrics` | gpu_stress_test.py:16-46 | One whole query: `None` whenever the tool is missing or its run fails, and otherwise at most one record per output line. |
| `Telemetry.NoCompleteLineNoRecords` | gpu_stress_test.py:31-33 | A batch in which every line has fewer than seven fields yields an empty list, not `None`. |
| `Telemetry.KeptFrom` | gpu_stress_test.py:31-33 | The positions of the lines with at least seven fields: strictly increasing, within the batch, and including every such line. |
| `Telemetry.ParsedRecordsFollowLines` | gpu_stress_test.py:30-43 | A successful parse has exactly one record per complete line, in line order, each built from that line's fields. There are never more records than lines. |
| `Telemetry.ParseFailsOnBadField` | gpu_stress_test.py:36-46 | Parsing yields `None` if and only if some line with at least seven fields has a numeric field that does not convert. No partial list is returned. |
| `Telemetry.QueryFailsExactly` | gpu_stress_test.py:16-46 | A query yields `None` if and only if the tool is missing, the tool run fails, or a complete output line has a field that does not convert. |
| `Telemetry.ShortLineIgnored` | gpu_stress_test.py:31-33 | Inserting a line with fewer than seven fields anywhere in a batch leaves the result unchanged, so the other lines are still kept. |
| `Telemetry.BlankOutputHasNoRecords` | gpu_stress_test.py:28-34 | Empty or all-whitespace output yields an empty list, not `None`. |
| `Telemetry.GetGpuMetrics` | gpu_stress_test.py:16-46 | The append loop returns exactly the result of `Metrics`, including `None` on a missing tool, a failed run or a field that does not convert. |
| `Sizing.TruncToInt` | gpu_stress_test.py:84 | Python's `int()` of a float rounds toward zero: it lies within 1 of its argument, never above it for non-negative input and never below it for negative input. |
| `Sizing.TargetCap` | gpu_stress_test.py:83-84 | There is a cap exactly when a target is given and it is nonzero. For a positive target the cap is the target in bytes rounded down. |
| `Sizing.AllocMemory` | gpu_stress_test.py:80-84 | The amount to fill never exceeds total memory less 1 GiB. It never exceeds a nonzero target's cap. It equals one of the two. With no cap it is total memory less 1 GiB. |
| `Sizing.PlanFiller` | gpu_stress_test.py:88-92 | A filler is planned if and only if the amount to fill minus 2 GiB is positive. Its size is that difference. Its element count `n` satisfies `4n <= size < 4n + 4`. |
| `Sizing.FillerFitsBudget` | gpu_stress_test.py:80-92 | Filler plus the 2 GiB compute allowance plus the 1 GiB headroom never exceeds total memory. With a positive target, filler plus compute allowance never exceeds the target in bytes. |
| `Sizing.LargerTargetFillsMore` | gpu_stress_test.py:83-84 | Raising a positive target never lowers the amount to fill. |
| `Sizing.SmallDeviceNoFiller` | gpu_stress_test.py:80-91 | A device with at most 3 GiB never gets a filler. |
| `Sizing.ZeroTargetIsNoTarget` | gpu_stress_test.py:83 | A zero target plans the same filler as no target. |
| `Sizing.NegativeTargetNoFiller` | gpu_stress_test.py:83-91 | A negative target is truthy, so it caps the amount at or below zero (a target above -2^-30 GB truncates to 0) and no filler is planned. |
| `StressDriver.ShouldExit` | gpu_stress_test.py:110 | The loop never exits for a duration of zero or less. It never exits while elapsed time is at most the duration (the comparison is strict). It does exit once elapsed time is at least one second past a positive duration. |
| `StressDriver.ExitPersists` | gpu_stress_test.py:110 | Once the exit test holds, it holds for every later elapsed time. |
| `StressDriver.StressGpu` | gpu_stress_test.py:80-118 | The driver uses the planned filler. A failed filler allocation ends the run before any compute buffer or product. Otherwise buffers exist exactly when their allocation succeeds. The loop completes one product per reading until the first reading that passes the exit test, or until the product that raises, which ends the run there. A run with a non-positive duration never ends by deadline. |

## Left out

- Running `nvidia-smi` (gpu_stress_test.py:18-27): `shutil.which`, `subprocess.run` and text decoding are external process I/O. Their result is the `ToolResult` input. The output is taken as already decoded, so the universal-newline translation of `text=True` happens before the model sees it.
- Python's `float()` (gpu_stress_test.py:36-41): floating-point parsing is abstracted as the `parseNum` parameter. Which strings it accepts is not modelled.
- `Sizing.TargetCap`: `--target-vram` is taken as the exact real value of the float, and the product with 2^30 at :84 as exact. That holds while the product stays finite. A target beyond about 1.67e299 in magnitude (such as `1e300`) overflows to infinity, and infinity or NaN make `int()` raise. The outer handler (:115-118) then ends the driver before any filler or compute. This raising path is not modelled: the model plans the capped filler and runs the loop instead.
- Elapsed time is a real number rather than a float difference of two `time.time()` readings.
- `StressDriver.StressGpu`: the real compute loop can run forever, and a Dafny method must terminate. The clock is therefore a finite sequence of readings. A run that uses all of them without reaching the deadline ends as `ClockExhausted`. In the source the clock is read only when `duration > 0`; the model indexes readings by iteration regardless, which does not change when the loop exits.
- `torch` calls (:72-77, :94-95, :101-105, :113): device properties, `empty`, `normal_`, `randn` and `mm` are foreign GPU library calls. The success of each allocation and the iteration whose `mm` raises are inputs, and the total memory is a parameter. A failure of `get_device_properties` is caught by the outer handler; it is not modelled.
- Console output (:45, :56-63, :76-77, :86, :96, :98, :102, :116, :118) is not modelled.
- `monitor_gpus` (:48-65) is a print-and-sleep loop driven by a global flag. It is left out as concurrency and console I/O.
- `main` (:120-157) is left out as concurrency and process lifecycle. It covers argument parsing, the exit with status 1 when no CUDA device is present, one thread per device, the join, `KeyboardInterrupt` handling and stopping the monitor.

### Behaviour the code does not have

These are sometimes attributed to this tool, but the code does not do them, so the model does not either:

- The compute loop does not stop at `elapsed == duration`; it exits only on `elapsed > duration` (strict).
- A failed filler allocation does not fall through to the compute loop with no filler; the driver returns (`return` at :99).
- There is no 20 %-usage "dirty device" check, no free-memory query, no accumulate-and-synchronize step in the loop, no signal handler with a hard exit, and no stop-flag check inside the compute loop.
- The headroom is not taken from free memory; it is subtracted from total memory. The target caps `alloc_memory`, which is filler plus the 2 GiB compute allowance.
