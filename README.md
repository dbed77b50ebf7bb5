# StepControl: the averaging step-control handle

This project models `StepControl`, the handle through which a user steers one
decentralized averaging step that a separate worker process runs, together with the
`AveragingStage` enumeration. The handle is a future for the whole step. Beside that
future it holds:

- an 18-byte buffer shared between processes. It holds four fields at fixed offsets:
  `scheduled_time` in bytes 0-7, `weight` in bytes 8-15, `stage` in byte 16 and
  `began_allreduce` in byte 17;
- three parameters fixed at construction: `deadline`, `allow_retries` and `gather_binary`;
- an optional trigger future, which the user resolves to let the worker start all-reduce.

Modules:

- `Wrappers` (wrappers.dfy): `Option`, `Result` and `Outcome`.
- `Stages` (stages.dfy): `AveragingStage`, its byte value, and the partial decoding of a
  byte back to a stage.
- `Binary64` (binary64.dfy): a Python float is its IEEE 754 binary64 bit pattern.
  - `Pack`/`Unpack` are what `struct.pack_into("d", ...)` and `struct.unpack("d", ...)` do
    with those eight bytes: little-endian, the native order of the platforms the source runs on.
  - `Value` gives the number a pattern denotes (finite, an infinity or NaN). Python's
    `>=`, `np.isfinite`, `-` and `max(0.0, x)` are stated on it.
- `Futures` (futures.dfy): the one-shot future that `StepControl` extends and that serves
  as its trigger. Only its local state is modelled: pending, resolved or cancelled.
- `Control` (control.dfy): the `StepControl` class.
  - The shared buffer is an `array<bv8>` of length 18. The setters write into it in place,
    and the getters are functions that decode it.
  - `SharedFields` and `Shared()` give the four decoded fields.
  - Each setter states the new `Shared()` as the old one with its own field replaced, and
    states which bytes it leaves alone.
  - The assertions in the source become `Outcome`/`Result` error values (`Error`), with
    the state unchanged on failure.
  - Logged warnings are a ghost sequence `warnings`. A setter that warns still writes.
  - The base future is the `base` field, because the class cannot inherit from `Future`.
  - The immutable parameters are `const` fields, so no method can change them.

## Model

| member | source | states |
|---|---|---|
| `Stages.FromByte` | hivemind/averaging/control.py:83-85 | decoding byte 16 succeeds exactly for the bytes 0..4, and the decoded stage's value is that byte |
| `Stages.FromByteValue` | hivemind/averaging/control.py:14-19 | decoding a stage's value gives back that stage |
| `Stages.ValueInjective` | hivemind/averaging/control.py:14-19 | distinct stages have distinct byte values |
| `Binary64.UnpackPack` | hivemind/averaging/control.py:60-70 | a float packed into eight bytes unpacks to the same float |
| `Binary64.PackUnpack` | hivemind/averaging/control.py:72-81 | any eight bytes are the packing of the float they unpack to |
| `Binary64.NonNegativeFiniteBits` | hivemind/averaging/control.py:78 | `weight >= 0 and np.isfinite(weight)` holds exactly for finite patterns with a clear sign bit, and for -0.0. It rejects NaN, both infinities and every negative number |
| `Binary64.MaxWithZero` | hivemind/averaging/control.py:110 | `max(0.0, x)` is never negative. It keeps `x` when `x` is positive or +inf, and gives 0.0 otherwise, NaN included |
| `Control.Timeout` | hivemind/averaging/control.py:109-110 | the remaining time is +inf or a non-negative number. For a finite deadline and clock it is `deadline - now` clamped at zero |
| `Control.TimeoutNonIncreasing` | hivemind/averaging/control.py:109-110 | a later clock reading never gives more remaining time |
| `Control.TimeoutZeroAtDeadline` | hivemind/averaging/control.py:109-110 | once the clock has reached the deadline, the remaining time is zero |
| `Control.ScheduleWarnings` | hivemind/averaging/control.py:66-69 | the scheduled-time setter warns about a late change exactly when all-reduce has begun, and about the deadline exactly when the new time is `>= deadline` |
| `Control.StepControl.constructor` | hivemind/averaging/control.py:33-43 | a new handle has a fresh zeroed buffer written by the four setters. It reads back stage IDLE, flag false, and the given scheduled time and weight. It has the given immutable parameters, no trigger, `can_modify` unset and a pending future. Its only warning is the deadline warning, when the scheduled time is at or after the deadline |
| `Control.Create` | hivemind/averaging/control.py:33-43 | construction fails with `InvalidWeight` exactly when the weight check fails; otherwise it returns a handle as above: fresh buffer and pending fresh future, the four fields read back, the given parameters, no trigger, `can_modify` unset. In both cases the deadline warning, logged before the weight check, is recorded when the scheduled time is at or after the deadline |
| `Control.StepControl.AttachTrigger` | hivemind/averaging/control.py:45-47 | attaching succeeds exactly when no trigger is attached, and then attaches the given trigger. A second attach fails with `TriggerAlreadyAttached` and leaves the first trigger in place |
| `Control.StepControl.AllowAllreduce` | hivemind/averaging/control.py:49-54 | without a trigger it fails with `TriggerNotAttached`. Otherwise the trigger is done afterwards, and a trigger that was already done gets a warning and keeps its state |
| `Control.StepControl.WaitForTrigger` | hivemind/averaging/control.py:56-58 | the check before awaiting fails with `TriggerNotAttached` exactly when no trigger is attached |
| `Control.StepControl.ScheduledTime` | hivemind/averaging/control.py:60-62 | the read is the float whose packing is bytes 0-7. With `UnpackPack` and `SetScheduledTime`'s contract on `Shared()`, it returns the last value written |
| `Control.StepControl.SetScheduledTime` | hivemind/averaging/control.py:64-70 | it always writes, and a read returns the new value. Bytes 8-17 and the other three fields are unchanged. It logs the warnings of `ScheduleWarnings` |
| `Control.StepControl.Weight` | hivemind/averaging/control.py:72-74 | the read is the float whose packing is bytes 8-15. With `UnpackPack` and `SetWeight`'s contract on `Shared()`, it returns the last accepted weight |
| `Control.StepControl.SetWeight` | hivemind/averaging/control.py:76-81 | a weight failing `>= 0 and isfinite` is refused with the buffer and log unchanged. Otherwise the weight is written and reads back, and a late change is logged. Bytes 0-7 and 16-17 and the other fields never change |
| `Control.StepControl.Stage` | hivemind/averaging/control.py:83-85 | the stage read fails exactly when byte 16 is not an enumeration value, and never fails on a valid handle |
| `Control.StepControl.SetStage` | hivemind/averaging/control.py:87-91 | byte 16 becomes the stage's value and reads back as that stage. Bytes 0-15 and 17 are unchanged. `can_modify` becomes false for RUNNING_ALLREDUCE and is untouched for every other stage |
| `Control.StepControl.BeganAllreduce` | hivemind/averaging/control.py:93-95 | on a valid handle, byte 17 is `int` of the flag read, so the read returns the last value `SetBeganAllreduce` wrote |
| `Control.StepControl.SetBeganAllreduce` | hivemind/averaging/control.py:97-99 | byte 17 becomes 1 or 0 and the flag reads back as written. Bytes 0-16 are unchanged |
| `Control.StepControl.GetTimeout` | hivemind/averaging/control.py:109-110 | the handle's timeout at `now` is `Timeout(deadline, now)`, never negative |
| `Control.StepControl.Cancel` | hivemind/averaging/control.py:125-128 | cancels the attached trigger, if any, then the handle's own future. It returns true unless the future already held a result. A done future keeps its state, so a second call changes nothing |
| `Control.StepControl.GetState` | hivemind/averaging/control.py:116-118 | the pickled state holds the shared buffer, the trigger, the base future and the three immutable parameters, and not `can_modify`. `PickledStateDeterminesReads` and `Transfer` state what that is enough for |
| `Control.PickledStateDeterminesReads` | hivemind/averaging/control.py:116-123 | two handles with the same pickled state read the same four shared fields, agree on validity and give the same timeout at every clock reading |
| `Control.StepControl.FromState` | hivemind/averaging/control.py:120-123 | a restored handle shares the sender's buffer, trigger and future, and has its immutable parameters |
| `Control.Transfer` | hivemind/averaging/control.py:116-123 | after pickling and unpickling, the copy reads the same four fields from the same buffer. It has the same trigger, future and immutable parameters, but not `can_modify` |
| `Control.WeightWrittenByReceiver` | hivemind/averaging/control.py:39 | a weight written through a transferred copy is what the original handle reads; its other fields are unchanged |
| `Control.PackInto` | hivemind/averaging/control.py:70 | `pack_into` replaces exactly the eight bytes at the offset with the float's packing |
| `Futures.AfterSetResult` | hivemind/averaging/control.py:52-54 | `set_result` turns a pending future into a resolved one; a future that was already done keeps its state |
| `Futures.SetResultOnce` | hivemind/averaging/control.py:52-54 | resolving twice is the same as resolving once |
| `Futures.AfterCancel` | hivemind/averaging/control.py:126-127 | `cancel()` turns a pending future into a cancelled one; a future that was already done keeps its state |
| `Futures.CancelIdempotent` | hivemind/averaging/control.py:125-128 | cancelling twice is the same as cancelling once |
| `Control.CancelAsWrittenNeverReturns` | hivemind/averaging/control.py:125-128 | the cancel path as written returns within no finite call depth. Once one frame has run, an attached trigger has been cancelled, just as the corrected `Cancel` does, before the stack runs out |

## Left out

- hivemind/optim/grad_scaler.py is not part of this model. It wraps a torch gradient
  scaler whose state is not visible here.
- The clock: `get_dht_time()` becomes the parameter `now`.
- Logging: only which warnings are logged, as a ghost sequence, and in what order.
- Cross-process behaviour is not modelled: `share_memory_()`, concurrent access to the
  buffer, and the future's cross-process resolution. Two handles sharing one buffer are
  modelled as two objects holding the same array.
- `await`: `WaitForTrigger` models only the check it makes before it awaits the trigger.
  The model does not show that a waiter resumes once the trigger is resolved.
- The base future's own pickled state (`super().__getstate__()`) is modelled only as
  sharing the same `Future` object.
- `Control.StepControl.GetTimeout`: gives the exact difference `deadline - now`, not the
  binary64-rounded one. Round-to-nearest is monotone and keeps zero, so the two stated
  properties (never negative, non-increasing in `now`) also hold for the rounded value.
- `Futures.AfterSetResult`: `set_result` on a future that is already done is taken to be
  a no-op. `allow_allreduce` only warns about a done trigger, so resolving twice is meant
  to be harmless. The future class's own code is not part of this model. The future's result value and its RUNNING state are not modelled.
- `Control.StepControl.constructor`: requires a weight the setter accepts. The failing
  case is `Control.Create`, which returns `InvalidWeight` instead of raising
  `AssertionError`.
- `can_modify` is never initialised in the source: the attribute does not exist until the
  stage setter assigns it. The model uses `None` for that. The source never reads
  `can_modify`, so the late-change warnings, not a refusal, are the only effect of a
  running all-reduce on the schedule setters.
- `began_allreduce` is meant as a latch that is never reset, and the stage as moving only
  forward. The source enforces neither: its setters write whatever they are given, and so
  do the model's.

## Findings

| source | as written | input that shows it | evidently intended | confidence | as-written member | corrected member |
|---|---|---|---|---|---|---|
| hivemind/averaging/control.py:125-128 | `cancel()` ends with `return self.cancel()`, calling itself instead of the base future's `cancel()` | any handle, with or without a trigger: every call recurses again, until the interpreter's recursion limit raises `RecursionError` | cancel the trigger if one is attached, then cancel the base future and return its result | high; not executed | `Control.CancelAsWritten` (with `Control.CancelAsWrittenNeverReturns`) | `Control.StepControl.Cancel` |
